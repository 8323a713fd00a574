/**
 Users spread over the workers of a cluster by a hash of their ID, and the square root that
 measures how even the spread is.
 */
module CitusCluster {
  import opened Options
  import opened Numbers
  import opened Identifiers

  const TOTAL_SHARDS: nat := 32

  // A hash picks the shard, and shards go round the workers.
  type Hash = Uuid -> nat

  function Route(hash: Hash, workers: nat, u: Uuid): (w: nat)
    requires workers > 0
    ensures w < workers && w < TOTAL_SHARDS
  {
    var shard := hash(u) % TOTAL_SHARDS;
    ModIsSmaller(shard, workers);
    shard % workers
  }

  // A user whose hash is a multiple of thirty-two and a shard is kept by the worker that the
  // shard falls to when shards are dealt out to the workers in turn.
  lemma ShardsGoRound(hash: Hash, workers: nat, u: Uuid, shard: nat, rounds: nat, turns: nat, w: nat)
    requires hash(u) == 32 * rounds + shard && shard < 32
    requires shard == workers * turns + w && w < workers
    ensures RoutedTo(hash, workers, [u], w, 1) == [u]
    ensures forall v: nat :: v != w ==> RoutedTo(hash, workers, [u], v, 1) == []
  {
    RemainderIs(hash(u), 32, rounds, shard);
    RemainderIs(shard, workers, turns, w);
    assert RoutedTo(hash, workers, [u], w, 0) == [];
  }

  lemma ModIsSmaller(a: nat, b: nat)
    requires b > 0
    ensures a % b <= a
  {
  }

  // ----- What the cluster holds -----

  // The users among the first n inserted that are routed to worker w.
  function RoutedTo(hash: Hash, workers: nat, inserted: seq<Uuid>, w: nat, n: nat): seq<Uuid>
    requires workers > 0 && n <= |inserted|
  {
    if n == 0 then []
    else RoutedTo(hash, workers, inserted, w, n - 1)
         + if Route(hash, workers, inserted[n - 1]) == w then [inserted[n - 1]] else []
  }

  lemma {:induction false} RoutedToPrefix(hash: Hash, workers: nat, a: seq<Uuid>, b: seq<Uuid>, w: nat, n: nat)
    requires workers > 0 && a <= b && n <= |a|
    ensures RoutedTo(hash, workers, a, w, n) == RoutedTo(hash, workers, b, w, n)
  {
    if n > 0 {
      RoutedToPrefix(hash, workers, a, b, w, n - 1);
    }
  }

  // How many of the first n inserted users are routed to these workers.
  function CountAt(hash: Hash, workers: nat, inserted: seq<Uuid>, at: set<nat>, n: nat): nat
    requires workers > 0 && n <= |inserted|
  {
    if n == 0 then 0
    else CountAt(hash, workers, inserted, at, n - 1) + if Route(hash, workers, inserted[n - 1]) in at then 1 else 0
  }

  lemma {:induction false} CountOneMore(hash: Hash, workers: nat, inserted: seq<Uuid>, at: set<nat>, w: nat, n: nat)
    requires workers > 0 && n <= |inserted| && w in at
    ensures CountAt(hash, workers, inserted, at, n)
         == CountAt(hash, workers, inserted, at - {w}, n) + |RoutedTo(hash, workers, inserted, w, n)|
  {
    if n > 0 {
      CountOneMore(hash, workers, inserted, at, w, n - 1);
    }
  }

  lemma {:induction false} CountAll(hash: Hash, workers: nat, inserted: seq<Uuid>, at: set<nat>, n: nat)
    requires workers > 0 && n <= |inserted|
    requires forall i :: 0 <= i < n ==> Route(hash, workers, inserted[i]) in at
    ensures CountAt(hash, workers, inserted, at, n) == n
  {
    if n > 0 {
      CountAll(hash, workers, inserted, at, n - 1);
    }
  }

  lemma {:induction false} CountNone(hash: Hash, workers: nat, inserted: seq<Uuid>, n: nat)
    requires workers > 0 && n <= |inserted|
    ensures CountAt(hash, workers, inserted, {}, n) == 0
  {
    if n > 0 {
      CountNone(hash, workers, inserted, n - 1);
    }
  }

  function ListOf(shards: map<nat, seq<Uuid>>, w: nat): seq<Uuid> {
    if w in shards then shards[w] else []
  }

  ghost predicate Mapped(hash: Hash, workers: nat, inserted: seq<Uuid>, shards: map<nat, seq<Uuid>>, shardMap: map<Uuid, nat>)
    requires workers > 0
  {
    && (forall u :: u in shardMap <==> u in inserted)
    && (forall u :: u in shardMap ==> shardMap[u] == Route(hash, workers, u) && shardMap[u] in shards)
  }

  // Each worker lists the users routed to it, in order of insertion, and every user
  // inserted is mapped to its worker.
  ghost predicate Spread(hash: Hash, workers: nat, inserted: seq<Uuid>, shards: map<nat, seq<Uuid>>, shardMap: map<Uuid, nat>)
    requires workers > 0
  {
    && (forall w: nat {:trigger ListOf(shards, w)} :: ListOf(shards, w) == RoutedTo(hash, workers, inserted, w, |inserted|))
    && Mapped(hash, workers, inserted, shards, shardMap)
  }

  lemma ListGrows(hash: Hash, workers: nat, inserted: seq<Uuid>, shards: map<nat, seq<Uuid>>, u: Uuid, w: nat)
    requires workers > 0 && ListOf(shards, w) == RoutedTo(hash, workers, inserted, w, |inserted|)
    ensures var at := Route(hash, workers, u);
      ListOf(shards[at := ListOf(shards, at) + [u]], w) == RoutedTo(hash, workers, inserted + [u], w, |inserted| + 1)
  {
    RoutedToPrefix(hash, workers, inserted, inserted + [u], w, |inserted|);
  }

  lemma MapGrows(hash: Hash, workers: nat, inserted: seq<Uuid>, shards: map<nat, seq<Uuid>>, shardMap: map<Uuid, nat>, u: Uuid)
    requires workers > 0 && Mapped(hash, workers, inserted, shards, shardMap)
    ensures var w := Route(hash, workers, u);
      Mapped(hash, workers, inserted + [u], shards[w := ListOf(shards, w) + [u]], shardMap[u := w])
  {
  }

  lemma SpreadGrows(hash: Hash, workers: nat, inserted: seq<Uuid>, shards: map<nat, seq<Uuid>>, shardMap: map<Uuid, nat>, u: Uuid)
    requires workers > 0 && Spread(hash, workers, inserted, shards, shardMap)
    ensures var w := Route(hash, workers, u);
      Spread(hash, workers, inserted + [u], shards[w := ListOf(shards, w) + [u]], shardMap[u := w])
  {
    var at := Route(hash, workers, u);
    var after := shards[at := ListOf(shards, at) + [u]];
    forall w: nat
      ensures ListOf(after, w) == RoutedTo(hash, workers, inserted + [u], w, |inserted| + 1)
    {
      ListGrows(hash, workers, inserted, shards, u, w);
    }
    MapGrows(hash, workers, inserted, shards, shardMap, u);
  }

  class CitusCluster {
    const hash: Hash
    const workers: nat
    var shards: map<nat, seq<Uuid>>
    var shardMap: map<Uuid, nat>
    // Every insertion so far, in order.
    ghost var inserted: seq<Uuid>

    ghost predicate Valid()
      reads this
    {
      workers > 0 && Spread(hash, workers, inserted, shards, shardMap)
    }

    constructor (hash: Hash, workers: nat)
      requires workers > 0
      ensures Valid() && this.hash == hash && this.workers == workers && inserted == []
    {
      this.hash, this.workers, shards, shardMap, inserted := hash, workers, map[], map[], [];
    }

    method InsertUser(userID: Uuid) returns (worker: nat)
      requires Valid()
      modifies `shards, `shardMap, `inserted
      ensures Valid() && inserted == old(inserted) + [userID]
      ensures worker == Route(hash, workers, userID)
    {
      worker := Route(hash, workers, userID);
      SpreadGrows(hash, workers, inserted, shards, shardMap, userID);
      shards := shards[worker := ListOf(shards, worker) + [userID]];
      shardMap := shardMap[userID := worker];
      inserted := inserted + [userID];
    }

    // A query for a user goes to the one worker that holds it, or to all if nobody does.
    method QueryUser(userID: Uuid) returns (worker: Option<nat>)
      requires Valid()
      ensures worker.Some? <==> userID in inserted
      ensures worker.Some? ==>
                && worker.value in shards
                && userID in shards[worker.value]
                && forall w :: w in shards && userID in shards[w] ==> w == worker.value
    {
      if userID in shardMap {
        var at := shardMap[userID];
        ghost var i :| 0 <= i < |inserted| && inserted[i] == userID;
        RoutedToHolds(hash, workers, inserted, at, |inserted|, i);
        assert ListOf(shards, at) == shards[at];
        forall w | w in shards && userID in shards[w]
          ensures w == at
        {
          RoutedToOnly(hash, workers, inserted, w, |inserted|);
          assert ListOf(shards, w) == shards[w];
        }
        return Some(at);
      }
      return None;
    }

    // Nothing is lost: the workers together hold every insertion once.
    method TotalUsers() returns (total: nat)
      requires Valid()
      ensures total == |inserted|
    {
      total := 0;
      var rest := shards.Keys;
      forall i | 0 <= i < |inserted|
        ensures Route(hash, workers, inserted[i]) in rest
      {
        assert inserted[i] in shardMap;
      }
      CountAll(hash, workers, inserted, rest, |inserted|);
      while rest != {}
        invariant rest <= shards.Keys
        invariant total + CountAt(hash, workers, inserted, rest, |inserted|) == |inserted|
        decreases rest
      {
        var w :| w in rest;
        CountOneMore(hash, workers, inserted, rest, w, |inserted|);
        assert ListOf(shards, w) == shards[w];
        total := total + |shards[w]|;
        rest := rest - {w};
      }
      CountNone(hash, workers, inserted, |inserted|);
    }
  }

  lemma {:induction false} RoutedToHolds(hash: Hash, workers: nat, inserted: seq<Uuid>, w: nat, n: nat, i: nat)
    requires workers > 0 && i < n <= |inserted| && Route(hash, workers, inserted[i]) == w
    ensures inserted[i] in RoutedTo(hash, workers, inserted, w, n)
  {
    if i < n - 1 {
      RoutedToHolds(hash, workers, inserted, w, n - 1, i);
    }
  }

  lemma {:induction false} RoutedToOnly(hash: Hash, workers: nat, inserted: seq<Uuid>, w: nat, n: nat)
    requires workers > 0 && n <= |inserted|
    ensures forall u :: u in RoutedTo(hash, workers, inserted, w, n) ==> Route(hash, workers, u) == w
  {
    if n > 0 {
      RoutedToOnly(hash, workers, inserted, w, n - 1);
    }
  }

  // ----- The square root -----

  function Quarter(n: nat): (q: real)
    ensures q > 0.0
  {
    if n == 0 then 1.0 else Quarter(n - 1) / 4.0
  }

  // How far the square of z is above x.
  function Excess(x: real, z: real): real {
    z * z - x
  }

  // One step of Newton's method.
  function Step(x: real, z: real): real
    requires z > 0.0
  {
    z - (z * z - x) / (2.0 * z)
  }

  // From any positive start a step lands at or above the root, and from there on it cuts the
  // excess to a quarter.
  lemma StepApproaches(x: real, z: real)
    requires x > 0.0 && z > 0.0
    ensures Step(x, z) > 0.0 && Excess(x, Step(x, z)) >= 0.0
    ensures Excess(x, z) >= 0.0 ==> Excess(x, Step(x, z)) <= Excess(x, z) / 4.0
  {
  }

  // After i steps.
  ghost predicate Close(x: real, z: real, first: real, i: nat) {
    z > 0.0 && (i > 0 ==> 0.0 <= Excess(x, z) <= Scaled(first, i - 1))
  }

  function Scaled(excess: real, n: nat): real {
    excess * Quarter(n)
  }

  lemma StepKeepsClose(x: real, z: real, first: real, i: nat)
    requires x > 0.0 && Close(x, z, first, i) && (i == 0 ==> first == Excess(x, Step(x, z)))
    ensures Close(x, Step(x, z), first, i + 1)
  {
  }

  // The powers of a quarter.
  lemma QuarterPowers(n: nat)
    ensures Quarter(0) == 1.0 && 4.0 * Quarter(n + 1) == Quarter(n)
  {
  }

  // The first step starts at half of x and leads to x / 4 + 1.
  lemma FirstStep(x: real)
    requires x > 0.0
    ensures Step(x, x / 2.0) == x / 4.0 + 1.0
    ensures Excess(x, Step(x, x / 2.0)) == (x / 4.0 - 1.0) * (x / 4.0 - 1.0)
  {
    var z := x / 2.0;
    var y := x / 4.0 - 1.0;
    assert z * z - x == x * y && 2.0 * z == x;
    QuotientOf(x, y);
    assert Step(x, z) == z - y;
    assert (y + 2.0) * (y + 2.0) - x == y * y;
  }

  lemma QuotientOf(x: real, y: real)
    requires x > 0.0
    ensures x * y / x == y
  {
  }

  // After a hundred steps from half of x, the square is at least x, and exceeds it by no more
  // than the excess after the first step divided by four ninety-nine times.
  method Sqrt(x: real) returns (z: real)
    ensures x <= 0.0 ==> z == 0.0
    ensures x > 0.0 ==>
              z > 0.0 && 0.0 <= z * z - x <= (x / 4.0 - 1.0) * (x / 4.0 - 1.0) * Quarter(99)
  {
    if x <= 0.0 {
      return 0.0;
    }
    FirstStep(x);
    z := x / 2.0;
    ghost var first := Excess(x, Step(x, z));
    for i := 0 to 100
      invariant i == 0 ==> z == x / 2.0
      invariant Close(x, z, first, i)
    {
      StepKeepsClose(x, z, first, i);
      z := Step(x, z);
    }
  }
}
