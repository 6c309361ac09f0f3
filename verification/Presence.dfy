/**
 * Who is watching which auction through which socket: one table by socket, one
 * count by person, and how far the two agree.
 */
module Presence {
  import opened Wrappers

  /** Ids are not empty and hold no colon, so a key reads back as the pair it came from. */
  type Id = s: string | s != "" && ':' !in s witness "a"
  type SocketId = string

  datatype Membership = Membership(auctionId: Id, userId: Id)

  datatype Registry = Registry(bySocket: map<SocketId, map<Id, Id>>, connections: map<string, int>)

  const EMPTY: Registry := Registry(map[], map[])

  function Key(auctionId: Id, userId: Id): string {
    auctionId + ":" + userId
  }

  function FirstColon(s: string): nat {
    if s == "" || s[0] == ':' then 0 else 1 + FirstColon(s[1..])
  }

  lemma {:induction false} ColonEndsTheFirst(a: string, u: string)
    requires ':' !in a
    ensures FirstColon(a + ":" + u) == |a|
    decreases |a|
  {
    if a != "" {
      assert (a + ":" + u)[1..] == a[1..] + ":" + u;
      ColonEndsTheFirst(a[1..], u);
    }
  }

  /** A key stands for one pair only. */
  lemma {:induction false} KeysDiffer(a: Id, u: Id, b: Id, v: Id)
    ensures Key(a, u) == Key(b, v) <==> a == b && u == v
  {
    if Key(a, u) == Key(b, v) {
      ColonEndsTheFirst(a, u);
      ColonEndsTheFirst(b, v);
      assert a == Key(a, u)[..|a|] && b == Key(b, v)[..|a|];
      assert u == Key(a, u)[|a| + 1..] && v == Key(b, v)[|a| + 1..];
    }
  }

  function Auctions(bySocket: map<SocketId, map<Id, Id>>, socketId: SocketId): map<Id, Id> {
    if socketId in bySocket then bySocket[socketId] else map[]
  }

  function Held(bySocket: map<SocketId, map<Id, Id>>, socketId: SocketId, auctionId: Id): Option<Id> {
    if auctionId in Auctions(bySocket, socketId) then Some(Auctions(bySocket, socketId)[auctionId]) else None
  }

  /** The sockets through which this person has this auction open. */
  function Holders(bySocket: map<SocketId, map<Id, Id>>, auctionId: Id, userId: Id): set<SocketId> {
    set s | s in bySocket && Held(bySocket, s, auctionId) == Some(userId)
  }

  function Count(connections: map<string, int>, key: string): int {
    if key in connections then connections[key] else 0
  }

  // ---- The operations ----

  function Bump(connections: map<string, int>, key: string, change: int): (map<string, int>, int) {
    var next := Count(connections, key) + change;
    if next <= 0 then (connections - {key}, 0) else (connections[key := next], next)
  }

  /** A socket with nothing left has no entry. */
  function Put(bySocket: map<SocketId, map<Id, Id>>, socketId: SocketId, auctions: map<Id, Id>): map<SocketId,
      map<Id, Id>> {
    if auctions == map[] then bySocket - {socketId} else bySocket[socketId := auctions]
  }

  function RegisterStep(r: Registry, socketId: SocketId, auctionId: Id, userId: Id): Registry {
    if Held(r.bySocket, socketId, auctionId) == Some(userId) then r
    else
      Registry(r.bySocket[socketId := Auctions(r.bySocket, socketId)[auctionId := userId]],
               Bump(r.connections, Key(auctionId, userId), 1).0)
  }

  /** The new registry, and whether this was the person's last connection. */
  function UnregisterStep(r: Registry, socketId: SocketId, auctionId: Id): (Registry, bool) {
    var userId := Held(r.bySocket, socketId, auctionId);
    if userId.None? then (r, false)
    else
      var (connections, left) := Bump(r.connections, Key(auctionId, userId.value), -1);
      (Registry(Put(r.bySocket, socketId, r.bySocket[socketId] - {auctionId}), connections), left == 0)
  }

  /** Lets go of these auctions one by one; lists those where the person is gone. */
  function ReleaseStep(r: Registry, socketId: SocketId, order: seq<Id>): (Registry, seq<Membership>) {
    if order == [] then (r, [])
    else
      var last := order[|order| - 1];
      var (before, gone) := ReleaseStep(r, socketId, order[..|order| - 1]);
      var (after, left) := UnregisterStep(before, socketId, last);
      var userId := Held(r.bySocket, socketId, last);
      (after, if left && userId.Some? then gone + [Membership(last, userId.value)] else gone)
  }

  /** All the auctions of a socket, each once, in any order. */
  ghost predicate Enumerates(order: seq<Id>, r: Registry, socketId: SocketId) {
    && (forall i, j | 0 <= i < j < |order| :: order[i] != order[j])
    && (forall a: Id :: a in order <==> a in Auctions(r.bySocket, socketId))
  }

  // ---- What every operation keeps ----

  ghost predicate RealKeys(connections: map<string, int>) {
    forall k | k in connections :: connections[k] > 0 && exists a: Id, u: Id :: k == Key(a, u)
  }

  ghost predicate NoEmptySockets(bySocket: map<SocketId, map<Id, Id>>) {
    forall s | s in bySocket :: bySocket[s] != map[]
  }

  ghost predicate Covers(r: Registry) {
    forall a: Id, u: Id :: Count(r.connections, Key(a, u)) >= |Holders(r.bySocket, a, u)|
  }

  /** No zero or stray entries, and nobody who holds a socket is counted too low. */
  ghost predicate Sound(r: Registry) {
    RealKeys(r.connections) && NoEmptySockets(r.bySocket) && Covers(r)
  }

  /** The count of every person is the number of their sockets. */
  ghost predicate Agrees(r: Registry) {
    forall a: Id, u: Id :: Count(r.connections, Key(a, u)) == |Holders(r.bySocket, a, u)|
  }

  lemma {:induction false} BumpCounts(connections: map<string, int>, a: Id, u: Id, change: int)
    requires RealKeys(connections) && Count(connections, Key(a, u)) + change >= 0
    ensures RealKeys(Bump(connections, Key(a, u), change).0)
    ensures forall b: Id, v: Id :: Count(Bump(connections, Key(a, u), change).0, Key(b, v))
              == Count(connections, Key(b, v)) + if a == b && u == v then change else 0
    ensures Bump(connections, Key(a, u), change).1 == Count(connections, Key(a, u)) + change
  {
    var after := Bump(connections, Key(a, u), change).0;
    forall b: Id, v: Id
      ensures Count(after, Key(b, v)) == Count(connections, Key(b, v)) + if a == b && u == v then change else 0
    {
      KeysDiffer(a, u, b, v);
    }
    hide Key;
  }

  lemma {:induction false} HolderAdded(before: map<SocketId, map<Id, Id>>, after: map<SocketId, map<Id, Id>>,
      s: SocketId, a: Id, u: Id)
    requires Held(before, s, a) != Some(u) && Held(after, s, a) == Some(u)
    requires forall t | t != s :: Held(after, t, a) == Held(before, t, a)
    ensures Holders(after, a, u) == Holders(before, a, u) + {s} && s !in Holders(before, a, u)
    ensures |Holders(after, a, u)| == |Holders(before, a, u)| + 1
  {
    forall t
      ensures t in Holders(after, a, u) <==> t in Holders(before, a, u) + {s}
    {
    }
  }

  lemma {:induction false} SameHolders(before: map<SocketId, map<Id, Id>>, after: map<SocketId, map<Id, Id>>, a: Id,
      u: Id)
    requires forall t :: Held(after, t, a) == Some(u) <==> Held(before, t, a) == Some(u)
    ensures Holders(after, a, u) == Holders(before, a, u)
  {
    forall t
      ensures t in Holders(after, a, u) <==> t in Holders(before, a, u)
    {
      assert Held(after, t, a) == Some(u) <==> Held(before, t, a) == Some(u);
    }
  }

  /** One socket's hold on one auction goes from one person (or nobody) to another (or nobody). */
  ghost predicate Switched(before: map<SocketId, map<Id, Id>>, after: map<SocketId, map<Id, Id>>, s: SocketId, a: Id,
      user: Option<Id>) {
    && Held(after, s, a) == user
    && forall t, b: Id | t != s || b != a :: Held(after, t, b) == Held(before, t, b)
  }

  function One(b: bool): int { if b then 1 else 0 }

  lemma {:induction false} SwitchCounts(before: map<SocketId, map<Id, Id>>, after: map<SocketId, map<Id, Id>>,
      s: SocketId, a: Id, user: Option<Id>, b: Id, v: Id)
    requires Switched(before, after, s, a, user)
    ensures |Holders(after, b, v)|
        == |Holders(before, b, v)| + One(b == a && user == Some(v)) - One(b == a && Held(before, s, a) == Some(v))
  {
    hide Holders;
    if b != a || (user == Some(v) <==> Held(before, s, a) == Some(v)) {
      forall t
        ensures Held(after, t, b) == Some(v) <==> Held(before, t, b) == Some(v)
      {
        if t == s && b == a { }
      }
      SameHolders(before, after, b, v);
    } else if user == Some(v) {
      HolderAdded(before, after, s, a, v);
    } else {
      HolderAdded(after, before, s, a, v);
    }
  }

  // ---- Registering ----

  /** A socket that already shows this auction as somebody else. */
  predicate Swaps(r: Registry, s: SocketId, a: Id, u: Id) {
    Held(r.bySocket, s, a).Some? && Held(r.bySocket, s, a) != Some(u)
  }

  lemma {:induction false} RegisterSwitches(r: Registry, s: SocketId, a: Id, u: Id)
    ensures Switched(r.bySocket, RegisterStep(r, s, a, u).bySocket, s, a, Some(u))
    ensures NoEmptySockets(r.bySocket) ==> NoEmptySockets(RegisterStep(r, s, a, u).bySocket)
  {
    hide Bump, Key;
  }

  /** Registering moves the count of this person by one with their sockets, and leaves the displaced person counted. */
  lemma {:induction false} RegisterKeeps(r: Registry, s: SocketId, a: Id, u: Id)
    requires Sound(r)
    ensures Sound(RegisterStep(r, s, a, u))
    ensures Switched(r.bySocket, RegisterStep(r, s, a, u).bySocket, s, a, Some(u))
    ensures forall b: Id, v: Id ::
              Count(RegisterStep(r, s, a, u).connections, Key(b, v)) - |Holders(RegisterStep(r, s, a, u).bySocket, b,
                  v)|
              == Count(r.connections, Key(b, v)) - |Holders(r.bySocket, b, v)|
                  + One(Swaps(r, s, a, u) && b == a && Held(r.bySocket, s, a) == Some(v))
  {
    var after := RegisterStep(r, s, a, u);
    RegisterSwitches(r, s, a, u);
    if Held(r.bySocket, s, a) != Some(u) { 
      assert Count(r.connections, Key(a, u)) >= |Holders(r.bySocket, a, u)|;
      BumpCounts(r.connections, a, u, 1);
      hide Bump, Held, Holders, Key, Count, RealKeys, NoEmptySockets, Switched;
      forall b: Id, v: Id
        ensures Count(after.connections, Key(b, v)) - |Holders(after.bySocket, b, v)|
                == Count(r.connections, Key(b, v)) - |Holders(r.bySocket, b, v)|
                    + One(Swaps(r, s, a, u) && b == a && Held(r.bySocket, s, a) == Some(v))
      {
        SwitchCounts(r.bySocket, after.bySocket, s, a, Some(u), b, v);
      }
    }
  }

  /** Registering keeps the two tables in agreement exactly when it does not show the auction as somebody else. */
  lemma {:induction false} RegisterAgreesExactly(r: Registry, s: SocketId, a: Id, u: Id)
    requires Sound(r) && Agrees(r)
    ensures Agrees(RegisterStep(r, s, a, u)) <==> !Swaps(r, s, a, u)
  {
    RegisterKeeps(r, s, a, u);
    var after := RegisterStep(r, s, a, u);
    hide RegisterStep, Holders, Held, Key, Sound;
    if Swaps(r, s, a, u) {
      var v := Held(r.bySocket, s, a).value;
      assert Count(after.connections, Key(a, v)) - |Holders(after.bySocket, a, v)| == 1;
    }
  }

  // ---- Unregistering ----

  lemma {:induction false} UnregisterSwitches(r: Registry, s: SocketId, a: Id)
    ensures Switched(r.bySocket, UnregisterStep(r, s, a).0.bySocket, s, a, None)
    ensures NoEmptySockets(r.bySocket) ==> NoEmptySockets(UnregisterStep(r, s, a).0.bySocket)
  {
    hide Bump, Key;
    if Held(r.bySocket, s, a).Some? {
      var rest := r.bySocket[s] - {a};
      assert UnregisterStep(r, s, a).0.bySocket == Put(r.bySocket, s, rest);
      hide UnregisterStep;
    }
  }

  /** Letting go moves the count with the sockets; the answer is yes exactly when the count was one. */
  lemma {:induction false} UnregisterKeeps(r: Registry, s: SocketId, a: Id)
    requires Sound(r)
    ensures Sound(UnregisterStep(r, s, a).0)
    ensures Switched(r.bySocket, UnregisterStep(r, s, a).0.bySocket, s, a, None)
    ensures forall b: Id, v: Id ::
              && Count(UnregisterStep(r, s, a).0.connections, Key(b, v))
                 == Count(r.connections, Key(b, v)) - One(b == a && Held(r.bySocket, s, a) == Some(v))
              && |Holders(UnregisterStep(r, s, a).0.bySocket, b, v)|
                 == |Holders(r.bySocket, b, v)| - One(b == a && Held(r.bySocket, s, a) == Some(v))
    ensures UnregisterStep(r, s, a).1 <==>
              Held(r.bySocket, s, a).Some? && Count(r.connections, Key(a, Held(r.bySocket, s, a).value)) == 1
  {
    UnregisterSwitches(r, s, a);
    UnregisterCounts(r, s, a);
    var after := UnregisterStep(r, s, a).0;
    hide UnregisterStep, Holders, Held, Key, Count, RealKeys, NoEmptySockets, Switched;
    forall b: Id, v: Id
      ensures |Holders(after.bySocket, b, v)|
          == |Holders(r.bySocket, b, v)| - One(b == a && Held(r.bySocket, s, a) == Some(v))
    {
      SwitchCounts(r.bySocket, after.bySocket, s, a, None, b, v);
    }
  }

  lemma {:induction false} UnregisterCounts(r: Registry, s: SocketId, a: Id)
    requires Sound(r)
    ensures RealKeys(UnregisterStep(r, s, a).0.connections)
    ensures forall b: Id, v: Id ::
              Count(UnregisterStep(r, s, a).0.connections, Key(b, v))
              == Count(r.connections, Key(b, v)) - One(b == a && Held(r.bySocket, s, a) == Some(v))
    ensures UnregisterStep(r, s, a).1 <==>
              Held(r.bySocket, s, a).Some? && Count(r.connections, Key(a, Held(r.bySocket, s, a).value)) == 1
  {
    if Held(r.bySocket, s, a).Some? {
      var u := Held(r.bySocket, s, a).value;
      HeldMeansCounted(r, s, a, u);
      BumpCounts(r.connections, a, u, -1);
      hide Bump, Holders, Key, Count, RealKeys, NoEmptySockets, Put, Auctions;
    }
  }

  lemma {:induction false} HeldMeansCounted(r: Registry, s: SocketId, a: Id, u: Id)
    requires Covers(r) && Held(r.bySocket, s, a) == Some(u)
    ensures Count(r.connections, Key(a, u)) >= |Holders(r.bySocket, a, u)| >= 1
  {
    assert s in Holders(r.bySocket, a, u);
    assert Holders(r.bySocket, a, u) != {};
  }

  // ---- Releasing a socket ----

  ghost predicate HoldsDropped(r: Registry, s: SocketId, order: seq<Id>, after: Registry) {
    forall t, b: Id :: Held(after.bySocket, t, b) == if t == s && b in order then None else Held(r.bySocket, t, b)
  }

  ghost predicate PairDropped(r: Registry, s: SocketId, order: seq<Id>, after: Registry, b: Id, v: Id) {
    var dropped := One(b in order && Held(r.bySocket, s, b) == Some(v));
    && Count(after.connections, Key(b, v)) == Count(r.connections, Key(b, v)) - dropped
    && |Holders(after.bySocket, b, v)| == |Holders(r.bySocket, b, v)| - dropped
  }

  ghost predicate CountsDropped(r: Registry, s: SocketId, order: seq<Id>, after: Registry) {
    forall b: Id, v: Id :: PairDropped(r, s, order, after, b, v)
  }

  ghost predicate GoneListed(r: Registry, s: SocketId, order: seq<Id>, gone: seq<Membership>) {
    && (forall b: Id, v: Id :: Membership(b, v) in gone <==>
          b in order && Held(r.bySocket, s, b) == Some(v) && Count(r.connections, Key(b, v)) == 1)
    && (forall i, j | 0 <= i < j < |gone| :: gone[i] != gone[j])
  }

  /** These auctions, and nothing else, were let go; `gone` lists those whose count was one, once each. */
  ghost predicate LetGo(r: Registry, s: SocketId, order: seq<Id>, after: Registry, gone: seq<Membership>) {
    Sound(after) && HoldsDropped(r, s, order, after) && CountsDropped(r, s, order, after)
        && GoneListed(r, s, order, gone)
  }

  lemma {:induction false} DropOneHold(r: Registry, s: SocketId, order: seq<Id>, before: Registry, a: Id)
    requires HoldsDropped(r, s, order, before)
    ensures HoldsDropped(r, s, order + [a], UnregisterStep(before, s, a).0)
  {
    var after := UnregisterStep(before, s, a).0;
    UnregisterSwitches(before, s, a);
    hide UnregisterStep, Held;
    var all := order + [a];
    forall t, b: Id
      ensures Held(after.bySocket, t, b) == if t == s && b in all then None else Held(r.bySocket, t, b)
    {
      assert b in all <==> b in order || b == a;
      assert Held(before.bySocket, t, b) == if t == s && b in order then None else Held(r.bySocket, t, b);
    }
  }

  lemma {:induction false} DropOneCount(r: Registry, s: SocketId, order: seq<Id>, before: Registry, a: Id)
    requires Sound(before) && HoldsDropped(r, s, order, before) && CountsDropped(r, s, order, before) && a !in order
    ensures CountsDropped(r, s, order + [a], UnregisterStep(before, s, a).0)
  {
    var after := UnregisterStep(before, s, a).0;
    UnregisterKeeps(before, s, a);
    assert Held(before.bySocket, s, a) == Held(r.bySocket, s, a);
    hide UnregisterStep, Sound, Held, Count, Key, Holders, Switched, HoldsDropped;
    var all := order + [a];
    forall b: Id, v: Id
      ensures PairDropped(r, s, all, after, b, v)
    {
      assert PairDropped(r, s, order, before, b, v);
      assert b in all <==> b in order || b == a;
    }
  }

  lemma {:induction false} ListOneMore(r: Registry, s: SocketId, order: seq<Id>, gone: seq<Membership>, a: Id, u: Id,
      left: bool)
    requires GoneListed(r, s, order, gone) && a !in order && Held(r.bySocket, s, a) == Some(u)
    requires left <==> Count(r.connections, Key(a, u)) == 1
    ensures GoneListed(r, s, order + [a], if left then gone + [Membership(a, u)] else gone)
  {
    hide Held, Count, Key;
    assert Membership(a, u) !in gone;
  }

  lemma {:induction false} LetGoOneMore(r: Registry, s: SocketId, order: seq<Id>, before: Registry,
      gone: seq<Membership>, a: Id)
    requires LetGo(r, s, order, before, gone) && a !in order && Held(r.bySocket, s, a).Some?
    ensures
      var (after, left) := UnregisterStep(before, s, a);
      LetGo(r, s, order + [a], after, if left then gone + [Membership(a, Held(r.bySocket, s, a).value)] else gone)
  {
    var (after, left) := UnregisterStep(before, s, a);
    var u := Held(r.bySocket, s, a).value;
    assert Held(before.bySocket, s, a) == Some(u);
    assert PairDropped(r, s, order, before, a, u);
    assert Count(before.connections, Key(a, u)) == Count(r.connections, Key(a, u));
    UnregisterKeeps(before, s, a);
    hide UnregisterStep, Sound, Held, Count, Key, Holders;
    DropOneHold(r, s, order, before, a);
    DropOneCount(r, s, order, before, a);
    ListOneMore(r, s, order, gone, a, u, left);
    hide HoldsDropped, CountsDropped, GoneListed;
  }

  lemma {:induction false} ReleaseLetsGo(r: Registry, s: SocketId, order: seq<Id>)
    requires Sound(r)
    requires forall i, j | 0 <= i < j < |order| :: order[i] != order[j]
    requires forall a: Id | a in order :: Held(r.bySocket, s, a).Some?
    ensures LetGo(r, s, order, ReleaseStep(r, s, order).0, ReleaseStep(r, s, order).1)
    decreases |order|
  {
    if order == [] {
      hide Sound, Key, Holders;
      assert HoldsDropped(r, s, order, r) && CountsDropped(r, s, order, r) && GoneListed(r, s, order, []);
    } else {
      var last := |order| - 1;
      hide LetGo, Sound, UnregisterStep;
      ReleaseLetsGo(r, s, order[..last]);
      var (before, gone) := ReleaseStep(r, s, order[..last]);
      LetGoOneMore(r, s, order[..last], before, gone, order[last]);
      assert order == order[..last] + [order[last]];
    }
  }

  /** The whole socket goes, every other socket stays as it was, and `gone` are the people it was the last socket of. */
  lemma {:induction false} ReleaseReturnsTheGone(r: Registry, s: SocketId, order: seq<Id>)
    requires Sound(r) && Enumerates(order, r, s)
    ensures
      var (after, gone) := ReleaseStep(r, s, order);
      && Sound(after)
      && after.bySocket == r.bySocket - {s}
      && (Agrees(r) ==> Agrees(after))
      && (forall i, j | 0 <= i < j < |gone| :: gone[i] != gone[j])
      && (Agrees(r) ==> forall a: Id, u: Id :: Membership(a, u) in gone <==> Holders(r.bySocket, a, u) == {s})
  {
    var (after, gone) := ReleaseStep(r, s, order);
    ReleaseLetsGo(r, s, order);
    hide ReleaseStep;
    SameSockets(r, s, order, after);
    if Agrees(r) {
      forall a: Id, u: Id
        ensures Count(after.connections, Key(a, u)) == |Holders(after.bySocket, a, u)|
      {
        assert PairDropped(r, s, order, after, a, u);
      }
      forall a: Id, u: Id
        ensures Membership(a, u) in gone <==> Holders(r.bySocket, a, u) == {s}
      {
        LastHolder(r, s, a, u);
      }
    }
    hide Holders, Held, Key, Count, Sound;
  }

  lemma {:induction false} LastHolder(r: Registry, s: SocketId, a: Id, u: Id)
    ensures Holders(r.bySocket, a, u) == {s} <==> |Holders(r.bySocket, a, u)| == 1 && Held(r.bySocket, s, a) == Some(u)
  {
    var holders := Holders(r.bySocket, a, u);
    if |holders| == 1 && Held(r.bySocket, s, a) == Some(u) {
      assert s in holders;
      assert |holders - {s}| == 0;
    }
    if holders == {s} {
      assert s in holders && |{s}| == 1;
    }
  }

  lemma {:induction false} SameSockets(r: Registry, s: SocketId, order: seq<Id>, after: Registry)
    requires Enumerates(order, r, s) && NoEmptySockets(r.bySocket) && NoEmptySockets(after.bySocket)
    requires forall t, b: Id ::
        Held(after.bySocket, t, b) == if t == s && b in order then None else Held(r.bySocket, t, b)
    ensures after.bySocket == r.bySocket - {s}
  {
    forall t
      ensures Auctions(after.bySocket, t) == if t == s then map[] else Auctions(r.bySocket, t)
    {
      var left := Auctions(after.bySocket, t);
      var right := if t == s then map[] else Auctions(r.bySocket, t);
      forall b: Id
        ensures (b in left <==> b in right) && (b in left ==> left[b] == right[b])
      {
        assert Held(after.bySocket, t, b) == if t == s && b in order then None else Held(r.bySocket, t, b);
      }
      SameInner(left, right);
    }
    hide Held;
    forall t
      ensures t in after.bySocket <==> t in r.bySocket && t != s
      ensures t in after.bySocket && t in r.bySocket ==> after.bySocket[t] == r.bySocket[t]
    {
      assert Auctions(after.bySocket, t) == if t == s then map[] else Auctions(r.bySocket, t);
    }
    assert after.bySocket.Keys == r.bySocket.Keys - {s};
  }

  lemma {:induction false} SameInner(a: map<Id, Id>, b: map<Id, Id>)
    requires forall k: Id :: (k in a <==> k in b) && (k in a ==> a[k] == b[k])
    ensures a == b
  {
    assert a.Keys == b.Keys;
  }

  // ---- Every run ----

  datatype Action =
    | Register(socketId: SocketId, auctionId: Id, userId: Id)
    | Unregister(socketId: SocketId, auctionId: Id)
    | ReleaseSocket(socketId: SocketId, order: seq<Id>)

  ghost function Next(r: Registry, action: Action): Registry {
    match action
    case Register(s, a, u) => RegisterStep(r, s, a, u)
    case Unregister(s, a) => UnregisterStep(r, s, a).0
    case ReleaseSocket(s, order) => if Enumerates(order, r, s) then ReleaseStep(r, s, order).0 else r
  }

  ghost function Run(actions: seq<Action>): Registry {
    if actions == [] then EMPTY else Next(Run(actions[..|actions| - 1]), actions[|actions| - 1])
  }

  /** How often this person was displaced from a socket by somebody else without being let go. */
  ghost function Displaced(actions: seq<Action>, a: Id, u: Id): nat {
    if actions == [] then 0
    else
      var before := actions[..|actions| - 1];
      var action := actions[|actions| - 1];
      Displaced(before, a, u)
      + if Displaces(Run(before), action, a, u) then 1 else 0
  }

  predicate Displaces(r: Registry, action: Action, a: Id, u: Id) {
    action.Register? && action.auctionId == a && Held(r.bySocket, action.socketId, a) == Some(u) && action.userId != u
  }

  /**
   * What a count is off by: it never falls below the sockets, and exceeds them by the times the person
   * was displaced.
   */
  ghost predicate OffBy(r: Registry, actions: seq<Action>) {
    forall a: Id, u: Id :: Count(r.connections, Key(a, u)) == |Holders(r.bySocket, a, u)| + Displaced(actions, a, u)
  }

  lemma {:induction false} StepDrifts(r: Registry, action: Action, a: Id, u: Id)
    requires Sound(r)
    ensures Sound(Next(r, action))
    ensures Count(Next(r, action).connections, Key(a, u)) - |Holders(Next(r, action).bySocket, a, u)|
            == Count(r.connections, Key(a, u)) - |Holders(r.bySocket, a, u)| + One(Displaces(r, action, a, u))
  {
    hide Sound, Key, Holders, Count, RegisterStep, UnregisterStep, ReleaseStep, Switched;
    match action {
      case Register(s, b, v) => RegisterKeeps(r, s, b, v);
      case Unregister(s, b) => UnregisterKeeps(r, s, b);
      case ReleaseSocket(s, order) =>
        if Enumerates(order, r, s) {
          ReleaseLetsGo(r, s, order);
          assert PairDropped(r, s, order, ReleaseStep(r, s, order).0, a, u);
          hide Enumerates, Held, HoldsDropped, GoneListed;
        }
    }
  }

  lemma {:induction false} StepOffBy(actions: seq<Action>, action: Action)
    requires Sound(Run(actions)) && OffBy(Run(actions), actions)
    ensures Sound(Run(actions + [action])) && OffBy(Run(actions + [action]), actions + [action])
  {
    var r := Run(actions);
    var all := actions + [action];
    assert all[..|actions|] == actions;
    assert Run(all) == Next(r, action);
    hide Sound, Key, Holders, Count, Next, Run, Displaces;
    StepDrifts(r, action, "a", "a");
    forall b: Id, v: Id
      ensures Count(Run(all).connections, Key(b, v)) == |Holders(Run(all).bySocket, b, v)| + Displaced(all, b, v)
    {
      StepDrifts(r, action, b, v);
      assert Count(r.connections, Key(b, v)) == |Holders(r.bySocket, b, v)| + Displaced(actions, b, v);
    }
  }

  lemma {:induction false} NothingYet()
    ensures Sound(Run([])) && OffBy(Run([]), [])
  {
    assert Run([]) == EMPTY;
    hide Run, Key;
    forall a: Id, u: Id
      ensures Count(EMPTY.connections, Key(a, u)) == |Holders(EMPTY.bySocket, a, u)| == Displaced([], a, u) == 0
    {
      assert Holders(EMPTY.bySocket, a, u) == {};
    }
  }

  /** In every run, the count of a person is the number of their sockets plus the times they were displaced. */
  lemma {:induction false} CountsAreOffByDisplacement(actions: seq<Action>)
    ensures Sound(Run(actions)) && OffBy(Run(actions), actions)
    decreases |actions|
  {
    hide *;
    if actions == [] {
      NothingYet();
    } else {
      var last := |actions| - 1;
      CountsAreOffByDisplacement(actions[..last]);
      StepOffBy(actions[..last], actions[last]);
      assert actions == actions[..last] + [actions[last]];
    }
  }

  /** Some socket re-registered an auction as somebody else during the run. */
  ghost predicate Swapped(actions: seq<Action>) {
    actions != [] &&
    (var before := actions[..|actions| - 1];
     var action := actions[|actions| - 1];
     Swapped(before) || (action.Register? && Swaps(Run(before), action.socketId, action.auctionId, action.userId)))
  }

  lemma {:induction false} DisplacedLast(actions: seq<Action>, a: Id, u: Id)
    requires actions != []
    ensures Displaced(actions, a, u) == Displaced(actions[..|actions| - 1], a, u)
              + One(Displaces(Run(actions[..|actions| - 1]), actions[|actions| - 1], a, u))
  {
  }

  lemma {:induction false} SwappedMeansDisplaced(actions: seq<Action>)
    ensures Swapped(actions) <==> exists a: Id, u: Id :: Displaced(actions, a, u) > 0
    decreases |actions|
  {
    if actions != [] {
      var before := actions[..|actions| - 1];
      var action := actions[|actions| - 1];
      SwappedMeansDisplaced(before);
      hide Run, Held, Displaced;
      if Swapped(before) {
        var a: Id, u: Id :| Displaced(before, a, u) > 0;
        DisplacedLast(actions, a, u);
      }
      if action.Register? && Swaps(Run(before), action.socketId, action.auctionId, action.userId) {
        DisplacedLast(actions, action.auctionId, Held(Run(before).bySocket, action.socketId, action.auctionId).value);
      }
      forall a: Id, u: Id
        ensures Displaced(actions, a, u) > 0 ==> Swapped(actions)
      {
        DisplacedLast(actions, a, u);
        assert Displaced(before, a, u) > 0 ==> Swapped(before);
      }
    }
  }

  /**
   * The tables agree after a run exactly when no socket ever changed identity within an auction; once
   * off, they stay off.
   */
  lemma {:induction false} AgreesExactlyWithoutSwaps(actions: seq<Action>)
    ensures Agrees(Run(actions)) <==> !Swapped(actions)
  {
    CountsAreOffByDisplacement(actions);
    SwappedMeansDisplaced(actions);
    hide Run, Displaced, Swapped, Key, Count, Holders, Sound;
    var r := Run(actions);
    if Agrees(r) {
      forall a: Id, u: Id
        ensures Displaced(actions, a, u) == 0
      {
        assert Count(r.connections, Key(a, u)) == |Holders(r.bySocket, a, u)|;
      }
    }
    if !Swapped(actions) {
      forall a: Id, u: Id
        ensures Count(r.connections, Key(a, u)) == |Holders(r.bySocket, a, u)|
      {
        assert !(Displaced(actions, a, u) > 0);
      }
    }
  }

  /**
   * A socket that rejoins an auction under another person's token: the first person stays counted with
   * no socket left.
   */
  lemma {:induction false} RejoiningAsAnotherDrifts(s: SocketId, a: Id, u: Id, v: Id)
    requires u != v
    ensures
      var actions := [Register(s, a, u), Register(s, a, v)];
      var r := Run(actions);
      && Swapped(actions) && !Agrees(r)
      && Held(r.bySocket, s, a) == Some(v)
      && Holders(r.bySocket, a, u) == {} && Count(r.connections, Key(a, u)) == 1
  {
    var one := [Register(s, a, u)];
    var two := [Register(s, a, u), Register(s, a, v)];
    assert one[..0] == [] && two[..1] == one;
    assert Run([]) == EMPTY;
    assert Run(one) == RegisterStep(EMPTY, s, a, u);
    assert Run(two) == RegisterStep(Run(one), s, a, v);
    hide Run;
    var r1 := RegisterStep(EMPTY, s, a, u);
    var r2 := RegisterStep(r1, s, a, v);
    var first: map<Id, Id> := map[a := u];
    var second: map<Id, Id> := map[a := v];
    assert first[a := v] == second;
    assert r1.bySocket == map[s := first];
    assert Auctions(r1.bySocket, s) == first;
    assert r2.bySocket == r1.bySocket[s := second] == map[s := second];
    assert Swaps(r1, s, a, v) && Swapped(two);
    DisplacedLast(two, a, u);
    assert Displaces(r1, two[1], a, u);
    AgreesExactlyWithoutSwaps(two);
    CountsAreOffByDisplacement(two);
    KeysDiffer(a, u, a, v);
    hide Displaced, Swapped, Key;
    assert r1.connections == map[Key(a, u) := 1];
    assert Count(r2.connections, Key(a, u)) == 1;
    assert Holders(r2.bySocket, a, u) == {};
  }
}
