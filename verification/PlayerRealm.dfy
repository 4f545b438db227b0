/** Realm IDs: the table of players, and the list of IDs to use again. */
module PlayerRealm {
  import opened NetTypes

  /** Players by ID, freed IDs, and the ID each player carries. */
  datatype Realm<!T> = Realm(players: map<nat, T>, free: seq<nat>, ids: map<T, nat>)

  function Span<T>(r: Realm<T>): nat {
    |r.players| + |r.free|
  }

  /** Live and free IDs make up 0..n-1 without repeats, and every player carries its own key. */
  ghost predicate Partitioned<T>(r: Realm<T>) {
    && r.ids.Keys == r.players.Values
    && (forall k :: k in r.players ==> r.ids[r.players[k]] == k)
    && (forall i, j :: 0 <= i < j < |r.free| ==> r.free[i] != r.free[j])
    && (forall i :: 0 <= i < |r.free| ==> r.free[i] !in r.players && r.free[i] < Span(r))
    && (forall k :: k in r.players ==> k < Span(r))
    && (forall k: nat :: k < Span(r) ==> k in r.players || k in r.free)
  }

  function FreeId<T>(r: Realm<T>): nat {
    if r.free == [] then |r.players| else r.free[0]
  }

  function Listed<T>(r: Realm<T>, o: T): Realm<T> {
    var id := FreeId(r);
    Realm(r.players[id := o], if r.free == [] then [] else r.free[1..], r.ids[o := id])
  }

  /** The ID put back is the one the player carries. */
  function Unlisted<T(==)>(r: Realm<T>, k: nat): Realm<T>
    requires k in r.players ==> r.players[k] in r.ids
  {
    if k !in r.players then r
    else
      var players := r.players - {k};
      Realm(players, r.free + [r.ids[r.players[k]]], map o | o in r.ids && o in players.Values :: r.ids[o])
  }

  /** An ID about to be issued is not in use. */
  lemma FreeIdIsFree<T>(r: Realm<T>)
    requires Partitioned(r)
    ensures FreeId(r) !in r.players
  {
  }

  /** Listing a player keeps the table in order exactly when that player is not listed yet. */
  lemma ListedIff<T>(r: Realm<T>, o: T)
    requires Partitioned(r)
    ensures Partitioned(Listed(r, o)) <==> o !in r.players.Values
  {
    if o in r.players.Values {
      ListedTwice(r, o);
    } else if r.free == [] {
      ListedAtEnd(r, o);
    } else {
      ListedInGap(r, o);
    }
  }

  lemma ListedTwice<T>(r: Realm<T>, o: T)
    requires Partitioned(r) && o in r.players.Values
    ensures !Partitioned(Listed(r, o))
  {
    var s := Listed(r, o);
    FreeIdIsFree(r);
    var k :| k in r.players && r.players[k] == o;
    assert s.players[k] == o && s.ids[o] == FreeId(r) != k;
  }

  lemma ListedAtEnd<T>(r: Realm<T>, o: T)
    requires Partitioned(r) && o !in r.players.Values && r.free == []
    ensures Partitioned(Listed(r, o)) && Span(Listed(r, o)) == Span(r) + 1
  {
    FreeIdIsFree(r);
    IdsAfterListing(r, o);
  }

  lemma ListedInGap<T>(r: Realm<T>, o: T)
    requires Partitioned(r) && o !in r.players.Values && r.free != []
    ensures Partitioned(Listed(r, o)) && Span(Listed(r, o)) == Span(r)
  {
    var s := Listed(r, o);
    FreeIdIsFree(r);
    IdsAfterListing(r, o);
    assert |s.players| == |r.players| + 1;
    assert forall i :: 0 <= i < |s.free| ==> s.free[i] == r.free[i + 1];
    assert r.free == [r.free[0]] + s.free;
    assert forall k :: k in r.free <==> k == r.free[0] || k in s.free;
  }

  lemma IdsAfterListing<T>(r: Realm<T>, o: T)
    requires Partitioned(r) && o !in r.players.Values && FreeId(r) !in r.players
    ensures var s := Listed(r, o);
      s.ids.Keys == s.players.Values && forall k :: k in s.players ==> s.ids[s.players[k]] == k
  {
    ValuesAfterListing(r.players, FreeId(r), o);
    assert forall k :: k in r.players ==> r.players[k] in r.players.Values;
  }

  lemma ValuesAfterListing<T>(m: map<nat, T>, id: nat, o: T)
    requires id !in m
    ensures m[id := o].Values == m.Values + {o}
  {
    var n := m[id := o];
    assert n[id] == o;
    assert forall k :: k in m ==> n[k] == m[k];
  }

  lemma UnlistedKeepsOrder<T>(r: Realm<T>, k: nat)
    requires Partitioned(r)
    ensures k in r.players ==> r.players[k] in r.ids
    ensures Partitioned(Unlisted(r, k)) && Span(Unlisted(r, k)) == Span(r)
    ensures k in r.players ==> Unlisted(r, k).free == r.free + [k]
  {
    if k in r.players {
      var s := Unlisted(r, k);
      assert r.players[k] in r.players.Values;
      assert |s.players| == |r.players| - 1 by {
        assert s.players.Keys == r.players.Keys - {k};
      }
      assert s.players.Values <= r.players.Values;
      assert s.free == r.free + [k];
      assert forall o :: o in s.players.Values ==> o in r.ids;
      assert s.ids.Keys == s.players.Values;
    }
  }

  // ---------------------------------------------------------------- removal by net ID

  ghost predicate IsLeast(s: set<nat>, k: nat) {
    k in s && forall j :: j in s ==> k <= j
  }

  lemma {:induction false} LeastExists(s: set<nat>) returns (k: nat)
    requires s != {}
    ensures IsLeast(s, k)
    decreases |s|
  {
    k :| k in s;
    if s != {k} {
      var j := LeastExists(s - {k});
      assert forall i :: i in s ==> i == k || i in s - {k};
      k := if j < k then j else k;
    }
  }

  ghost function Least(s: set<nat>): (k: nat)
    requires s != {}
    ensures IsLeast(s, k)
  {
    assert exists k :: IsLeast(s, k) by {
      var k := LeastExists(s);
    }
    var k :| IsLeast(s, k);
    k
  }

  ghost function Carrying<T>(r: Realm<T>, net: T -> uint32, id: uint32): set<nat> {
    set k | k in r.players && net(r.players[k]) == id
  }

  /** Removes the lowest ID whose player has the net ID. */
  ghost function UnlistedByNet<T>(r: Realm<T>, net: T -> uint32, id: uint32): Realm<T>
    requires forall k :: k in r.players ==> r.players[k] in r.ids
  {
    if Carrying(r, net, id) == {} then r else Unlisted(r, Least(Carrying(r, net, id)))
  }

  /** The player that goes is the lowest one with the net ID; without one nobody does. */
  lemma UnlistedByNetIs<T>(r: Realm<T>, net: T -> uint32, id: uint32)
    requires Partitioned(r)
    ensures forall k :: k in r.players ==> r.players[k] in r.ids
    ensures (forall k :: k in r.players ==> net(r.players[k]) != id) ==> UnlistedByNet(r, net, id) == r
    ensures forall k :: k in r.players && net(r.players[k]) == id ==>
      (forall j :: j in r.players && j < k ==> net(r.players[j]) != id) ==>
        UnlistedByNet(r, net, id).players == r.players - {k} && UnlistedByNet(r, net, id).free == r.free + [k]
  {
    assert forall k :: k in r.players ==> r.players[k] in r.players.Values;
    hide Partitioned;
    forall k | k in r.players && net(r.players[k]) == id
        && forall j :: j in r.players && j < k ==> net(r.players[j]) != id
      ensures UnlistedByNet(r, net, id) == Unlisted(r, k)
    {
      assert IsLeast(Carrying(r, net, id), k);
    }
  }

  // ---------------------------------------------------------------- runs

  datatype Op<T> = Add(o: T) | Remove(id: nat) | RemoveByNetID(netId: uint32)

  lemma PlayersCarryIds<T>(r: Realm<T>)
    requires Partitioned(r)
    ensures forall k :: k in r.players ==> r.players[k] in r.ids
  {
    assert forall k :: k in r.players ==> r.players[k] in r.players.Values;
  }

  /** Every table in a run started in order stays in order while no listed player is added. */
  ghost function Step<T>(r: Realm<T>, op: Op<T>, net: T -> uint32): (s: Realm<T>)
    requires Partitioned(r)
  {
    PlayersCarryIds(r);
    match op
    case Add(o) => Listed(r, o)
    case Remove(id) => Unlisted(r, id)
    case RemoveByNetID(id) => UnlistedByNet(r, net, id)
  }

  predicate AddsNew<T(==)>(r: Realm<T>, op: Op<T>) {
    op.Add? ==> op.o !in r.players.Values
  }

  lemma StepIff<T>(r: Realm<T>, op: Op<T>, net: T -> uint32)
    requires Partitioned(r)
    ensures Partitioned(Step(r, op, net)) <==> AddsNew(r, op)
    ensures AddsNew(r, op) ==>
      Span(Step(r, op, net)) == if |Step(r, op, net).players| > Span(r) then |Step(r, op, net).players| else Span(r)
    ensures |r.players| <= Span(r)
  {
    PlayersCarryIds(r);
    match op
    case Add(o) =>
      ListedIff(r, o);
      FreeIdIsFree(r);
      hide Partitioned;
    case Remove(id) =>
      UnlistedKeepsOrder(r, id);
      hide Partitioned;
    case RemoveByNetID(id) =>
      if Carrying(r, net, id) != {} {
        UnlistedKeepsOrder(r, Least(Carrying(r, net, id)));
      }
      hide Partitioned;
  }

  ghost predicate AllNew<T>(r: Realm<T>, ops: seq<Op<T>>, net: T -> uint32)
    requires Partitioned(r)
    decreases |ops|
  {
    ops == [] || (AddsNew(r, ops[0]) && (StepIff(r, ops[0], net); AllNew(Step(r, ops[0], net), ops[1..], net)))
  }

  ghost function Run<T>(r: Realm<T>, ops: seq<Op<T>>, net: T -> uint32): (s: Realm<T>)
    requires Partitioned(r) && AllNew(r, ops, net)
    ensures Partitioned(s)
    decreases |ops|
  {
    if ops == [] then r
    else
      StepIff(r, ops[0], net);
      Run(Step(r, ops[0], net), ops[1..], net)
  }

  /** The largest number of players at any moment of a run. */
  ghost function Peak<T>(r: Realm<T>, ops: seq<Op<T>>, net: T -> uint32): nat
    requires Partitioned(r) && AllNew(r, ops, net)
    decreases |ops|
  {
    if ops == [] then |r.players|
    else
      StepIff(r, ops[0], net);
      var later := Peak(Step(r, ops[0], net), ops[1..], net);
      if later > |r.players| then later else |r.players|
  }

  /** The IDs a run issues. */
  ghost function Issued<T>(r: Realm<T>, ops: seq<Op<T>>, net: T -> uint32): seq<nat>
    requires Partitioned(r) && AllNew(r, ops, net)
    decreases |ops|
  {
    if ops == [] then []
    else
      StepIff(r, ops[0], net);
      (if ops[0].Add? then [FreeId(r)] else []) + Issued(Step(r, ops[0], net), ops[1..], net)
  }

  /** Used and free IDs together are as many as there ever were players at once, and no ID issued is higher. */
  lemma {:induction false} SpanIsPeak<T>(r: Realm<T>, ops: seq<Op<T>>, net: T -> uint32)
    requires Partitioned(r) && AllNew(r, ops, net)
    ensures Span(Run(r, ops, net)) == if Peak(r, ops, net) > Span(r) then Peak(r, ops, net) else Span(r)
    ensures forall id :: id in Issued(r, ops, net) ==> id < Span(Run(r, ops, net))
    decreases |ops|
  {
    if ops == [] {
    } else {
      StepIff(r, ops[0], net);
      SpanIsPeak(Step(r, ops[0], net), ops[1..], net);
      if ops[0].Add? {
        assert FreeId(r) in Step(r, ops[0], net).players;
        assert FreeId(r) < Span(Step(r, ops[0], net));
      }
    }
  }

  ghost function Empty<T>(): (r: Realm<T>)
    ensures Partitioned(r)
  {
    Realm(map[], [], map[])
  }

  /**
   * From an empty realm, over every run that lists no player twice: live and free IDs partition
   * 0..n-1, where n is the largest number of simultaneous players, and every ID issued is below n.
   */
  lemma RealmRuns<T>(ops: seq<Op<T>>, net: T -> uint32)
    requires AllNew(Empty(), ops, net)
    ensures var r, n := Run(Empty(), ops, net), Peak(Empty(), ops, net);
      && Partitioned(r) && |r.players| + |r.free| == n
      && forall id :: id in Issued(Empty(), ops, net) ==> id < n
  {
    SpanIsPeak(Empty(), ops, net);
  }

  // ---------------------------------------------------------------- the class

  class Player {
    const netId: uint32
    var realmId: nat
    var peer: Option<nat>

    constructor (netId: uint32)
      ensures this.netId == netId
    {
      this.netId := netId;
    }
  }

  function NetIdOf(p: Player): uint32 {
    p.netId
  }

  class CPlayerRealm {
    var players: map<nat, Player>
    var free: seq<nat>

    ghost function State(): Realm<Player>
      reads this, players.Values
    {
      Realm(players, free, map p | p in players.Values :: p.realmId)
    }

    constructor ()
      ensures State() == Empty()
    {
      players, free := map[], [];
    }

    method GetFreeID() returns (i: nat)
      modifies this`free
      ensures i == FreeId(old(State())) && free == if old(free) == [] then [] else old(free)[1..]
      ensures old(free) == [] ==> i == |players|
      ensures old(free) != [] ==> old(free) == [i] + free
    {
      if free == [] {
        i := |players|;
      } else {
        i := free[0];
        free := free[1..];
      }
    }

    /** Whatever the table. */
    method Enlist(player: Player)
      modifies this, player`realmId
      ensures player.realmId == FreeId(old(State()))
      ensures player.realmId == if old(free) == [] then |old(players)| else old(free)[0]
      ensures players == old(players)[player.realmId := player]
      ensures free == if old(free) == [] then [] else old(free)[1..]
    {
      player.realmId := GetFreeID();
      players := players[player.realmId := player];
    }

    /** In an orderly table the ID was free, so nobody is replaced. */
    method Add(player: Player, peer: Option<nat>)
      modifies this, player
      ensures player.realmId == if old(free) == [] then |old(players)| else old(free)[0]
      ensures players == old(players)[player.realmId := player]
      ensures free == if old(free) == [] then [] else old(free)[1..]
      ensures player.realmId == FreeId(old(State())) && player.peer == peer
      ensures old(Partitioned(State())) ==> State() == Listed(old(State()), player)
    {
      ghost var before, orderly := players, Partitioned(State());
      if orderly {
        FreeIdIsFree(State());
      }
      hide Partitioned;
      Enlist(player);
      player.peer := peer;
      if orderly {
        assert forall p :: p in players.Values <==> p == player || p in before.Values by {
          assert players[player.realmId] == player;
          assert forall k :: k in before ==> players[k] == before[k];
        }
      }
    }

    method Remove(id: nat) returns (found: bool)
      modifies this
      ensures found == (id in old(players)) && (!found ==> State() == old(State()))
      ensures found ==> players == old(players) - {id} && free == old(free) + [old(players[id].realmId)]
      ensures id in old(players) ==> old(players)[id] in old(State()).ids
      ensures State() == Unlisted(old(State()), id)
    {
      if id !in players {
        return false;
      }
      Drop(id);
      found := true;
    }

    method Drop(id: nat)
      requires id in players
      modifies this
      ensures players == old(players) - {id} && free == old(free) + [old(players[id].realmId)]
      ensures old(players)[id] in old(State()).ids && State() == Unlisted(old(State()), id)
    {
      free := free + [players[id].realmId];
      players := players - {id};
    }

    /** Goes through the players in the order of their IDs. */
    method RemoveByNetID(netId: uint32) returns (found: bool)
      modifies this
      ensures found <==> exists k :: k in old(players) && old(players)[k].netId == netId
      ensures forall k :: k in old(players) ==> old(players)[k] in old(State()).ids
      ensures State() == UnlistedByNet(old(State()), NetIdOf, netId)
      ensures !found ==> State() == old(State())
      ensures found ==> exists k ::
        && k in old(players) && old(players)[k].netId == netId
        && (forall j :: j in old(players) && j < k ==> old(players)[j].netId != netId)
        && players == old(players) - {k} && free == old(free) + [old(players[k].realmId)]
    {
      var rest := players.Keys;
      while rest != {}
        invariant rest <= players.Keys && forall j, k :: j in players && j !in rest && k in rest ==> j < k
        invariant forall k :: k in players && k !in rest ==> players[k].netId != netId
      {
        ghost var least := Least(rest);
        var k :| k in rest && forall j :: j in rest ==> k <= j;
        if players[k].netId == netId {
          assert k in Carrying(State(), NetIdOf, netId);
          assert k == Least(Carrying(State(), NetIdOf, netId));
          Drop(k);
          return true;
        }
        rest := rest - {k};
      }
      found := false;
    }
  }
}
