/** Player ids: assignment never changes a binding and never gives one id to two players. */
module PlayerIds {
  import opened StoreSpec

  /** One id per player, all below the next free one. */
  ghost predicate IdsOk(players: Players, next: nat) {
    && (forall p | p in players :: players[p] < next)
    && (forall p, q | p in players && q in players && players[p] == players[q] :: p == q)
  }

  /** `pids` are the ids the table gives `puuids`. */
  ghost predicate Bound(players: Players, puuids: seq<Puuid>, pids: seq<nat>) {
    && |pids| == |puuids|
    && forall i | 0 <= i < |puuids| :: puuids[i] in players && players[puuids[i]] == pids[i]
  }

  /** Every binding of `a` is one of `b`. */
  ghost predicate Extends(a: Players, b: Players) {
    forall p | p in a :: p in b && b[p] == a[p]
  }

  lemma NewId(players: Players, next: nat, p: Puuid)
    requires IdsOk(players, next) && p !in players
    ensures IdsOk(players[p := next], next + 1) && Extends(players, players[p := next])
  {
  }

  lemma ExtendsTwice(a: Players, b: Players, c: Players)
    requires Extends(a, b) && Extends(b, c)
    ensures Extends(a, c)
  {
  }

  lemma {:induction false} AssignGrows(players: Players, next: nat, puuids: seq<Puuid>, n: nat)
    requires n <= |puuids| && IdsOk(players, next)
    ensures var r := AssignIds(players, next, puuids, n);
            && IdsOk(r.players, r.next)
            && Extends(players, r.players)
            && (forall p | p in r.players :: p in players || p in puuids)
  {
    if n > 0 {
      AssignGrows(players, next, puuids, n - 1);
      var before, after := AssignIds(players, next, puuids, n - 1), AssignIds(players, next, puuids, n);
      if puuids[n - 1] !in before.players {
        hide IdsOk, Extends;
        NewId(before.players, before.next, puuids[n - 1]);
        ExtendsTwice(players, before.players, after.players);
      }
    }
  }

  lemma {:induction false} AssignNames(players: Players, next: nat, puuids: seq<Puuid>, n: nat)
    requires n <= |puuids| && IdsOk(players, next)
    ensures var r := AssignIds(players, next, puuids, n);
            forall i | 0 <= i < n :: puuids[i] in r.players && r.players[puuids[i]] == r.pids[i]
  {
    hide IdsOk;
    if n > 0 {
      AssignNames(players, next, puuids, n - 1);
    }
  }

  /** Known players keep their ids, the named ones all get one, and nobody else does. */
  lemma AssignKeeps(players: Players, next: nat, puuids: seq<Puuid>)
    requires IdsOk(players, next)
    ensures var r := AssignIds(players, next, puuids, |puuids|);
            && IdsOk(r.players, r.next)
            && Extends(players, r.players)
            && Bound(r.players, puuids, r.pids)
            && (forall p :: p in r.players <==> p in players || p in puuids)
  {
    hide AssignIds, IdsOk;
    AssignGrows(players, next, puuids, |puuids|);
    AssignNames(players, next, puuids, |puuids|);
  }

  /** The players among the first `n` who have no id yet. */
  function Unknown(players: Players, puuids: seq<Puuid>, n: nat): set<Puuid>
    requires n <= |puuids|
  {
    set p | p in puuids[..n] && p !in players
  }

  lemma UnknownMore(players: Players, puuids: seq<Puuid>, n: nat)
    requires 0 < n <= |puuids|
    ensures forall p :: p in puuids[..n] <==> p in puuids[..n - 1] || p == puuids[n - 1]
    ensures |Unknown(players, puuids, n)|
         == |Unknown(players, puuids, n - 1)|
            + (if puuids[n - 1] in players || puuids[n - 1] in puuids[..n - 1] then 0 else 1)
  {
    var p := puuids[n - 1];
    assert puuids[..n] == puuids[..n - 1] + [p];
    var more: set<Puuid> := if p in players || p in puuids[..n - 1] then {} else {p};
    assert Unknown(players, puuids, n) == Unknown(players, puuids, n - 1) + more;
  }

  lemma {:induction false} AssignAdds(players: Players, next: nat, puuids: seq<Puuid>, n: nat)
    requires n <= |puuids|
    ensures var r := AssignIds(players, next, puuids, n);
            && r.next == next + |Unknown(players, puuids, n)|
            && forall p :: p in r.players <==> p in players || p in puuids[..n]
  {
    if n == 0 {
      assert Unknown(players, puuids, 0) == {};
    } else {
      hide Unknown;
      AssignAdds(players, next, puuids, n - 1);
      UnknownMore(players, puuids, n);
    }
  }

  /** New players are numbered in the order they first appear, from the next free id on and without gaps. */
  lemma {:induction false} AssignInOrder(players: Players, next: nat, puuids: seq<Puuid>, n: nat, i: nat)
    requires i < n <= |puuids| && puuids[i] !in players && puuids[i] !in puuids[..i]
    ensures AssignIds(players, next, puuids, n).pids[i] == next + |Unknown(players, puuids, i)|
    ensures AssignIds(players, next, puuids, n).next == next + |Unknown(players, puuids, n)|
    decreases n
  {
    hide Unknown;
    AssignAdds(players, next, puuids, n - 1);
    AssignAdds(players, next, puuids, n);
    if i < n - 1 {
      AssignInOrder(players, next, puuids, n - 1, i);
    }
  }

  /** Distinct players get distinct ids. */
  lemma BoundDistinct(players: Players, next: nat, puuids: seq<Puuid>, pids: seq<nat>)
    requires IdsOk(players, next) && Bound(players, puuids, pids)
    requires forall i, j | 0 <= i < j < |puuids| :: puuids[i] != puuids[j]
    ensures forall i, j | 0 <= i < j < |pids| :: pids[i] != pids[j]
  {
    forall i, j | 0 <= i < j < |pids| ensures pids[i] != pids[j] {
      assert puuids[i] != puuids[j];
    }
  }

  lemma BoundGrows(a: Players, b: Players, puuids: seq<Puuid>, pids: seq<nat>)
    requires Bound(a, puuids, pids) && Extends(a, b)
    ensures Bound(b, puuids, pids)
  {
  }

  /** Known players keep their ids, and assigning them again changes nothing. */
  lemma {:induction false} AssignKnown(players: Players, next: nat, puuids: seq<Puuid>, pids: seq<nat>, n: nat)
    requires n <= |puuids| && Bound(players, puuids, pids)
    ensures AssignIds(players, next, puuids, n) == Ids(players, next, pids[..n])
  {
    if n > 0 {
      AssignKnown(players, next, puuids, pids, n - 1);
      assert pids[..n] == pids[..n - 1] + [pids[n - 1]];
    }
  }

  /** The next free id a fresh start computes from the table. */
  ghost predicate NextFree(players: Players, next: nat) {
    && next >= 1
    && (forall p | p in players :: players[p] < next)
    && (next == 1 || exists p :: p in players && players[p] + 1 == next)
  }
}
