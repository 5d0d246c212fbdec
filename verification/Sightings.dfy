/** One player's standing with the cohort, and what sighting a match's players does to it. */
module Sightings {
  import opened StoreSpec

  /** How often `p` is among the first `n` of a match's players. */
  function Times(pids: seq<nat>, n: nat, p: nat): nat
    requires n <= |pids|
  {
    if n == 0 then 0 else Times(pids, n - 1, p) + (if pids[n - 1] == p then 1 else 0)
  }

  datatype Standing = Member | Outsider(seen: nat)

  /** An outsider seen `more` times: the second sighting makes a member, unless growth is paused. */
  function Seen(seen: nat, more: nat, paused: bool): Standing {
    if !paused && more >= 1 && seen + more >= 2 then Member else Outsider(seen + more)
  }

  /** The tables agree with a player's standing. */
  ghost predicate InTables(cohort: set<nat>, outsider: map<nat, nat>, p: nat, standing: Standing) {
    match standing
    case Member => p in cohort && p !in outsider
    case Outsider(seen) => p !in cohort && Get(outsider, p) == seen
  }

  /** Sighting a match's players, one of them `p`, each time he is named. */
  lemma {:induction false} SightedTimes(
      cohort: set<nat>, outsider: map<nat, nat>, pids: seq<nat>, paused: bool, n: nat, p: nat)
    requires n <= |pids| && (p in cohort ==> p !in outsider)
    ensures var c := SightAll(cohort, outsider, pids, paused, n);
            var more := Times(pids, n, p);
            && (p in c.cohort ==> p !in c.outsider)
            && (p in c.cohort <==> p in cohort || (!paused && more >= 1 && Get(outsider, p) + more >= 2))
            && (p !in c.cohort ==> Get(c.outsider, p) == Get(outsider, p) + more)
  {
    if n > 0 {
      SightedTimes(cohort, outsider, pids, paused, n - 1, p);
    }
  }
}
