/** The life cycle of edge weights: upsert and boost, co-access, decay, prune. Weights are
    whole ten-thousandths, as the four-decimal column stores them. */
module EdgeWeights {
  import opened Basics

  const MIN_WEIGHT := 100
  const MAX_WEIGHT := 10000
  const BOOST := 500
  const CO_ACCESS_WEIGHT := 3000

  datatype Key = Key(source: nat, target: nat, kind: string)

  /** `last` is the time of the last traversal, -1 if there was none. */
  datatype Row = Row(weight: int, traversals: nat, last: int)

  type Table = map<Key, Row>

  function Min(a: int, b: int): int {
    if a < b then a else b
  }

  function Upserted(edges: Table, k: Key, weight: int, now: nat): Table {
    if k in edges
    then edges[k := Row(Min(MAX_WEIGHT, edges[k].weight + BOOST), edges[k].traversals + 1, now)]
    else edges[k := Row(weight, 0, -1)]
  }

  /** weight * 0.95, rounded half up to four decimals by the column. */
  function Faded(weight: int): int {
    Max(MIN_WEIGHT, (weight * 95 + 50) / 100)
  }

  predicate Stale(row: Row, now: nat, days: nat) {
    row.last == -1 || row.last < now - days
  }

  function DecayedRow(row: Row, now: nat, days: nat): Row {
    if Stale(row, now, days) && row.weight > MIN_WEIGHT then row.(weight := Faded(row.weight)) else row
  }

  function Decayed(edges: Table, now: nat, days: nat): Table {
    map k | k in edges :: DecayedRow(edges[k], now, days)
  }

  function Pruned(edges: Table): Table {
    map k | k in edges && edges[k].weight >= MIN_WEIGHT :: edges[k]
  }

  /** The pairs (earlier, later) of a list, in the order of the two nested loops. */
  function PairsFrom(x: nat, rest: seq<nat>): (pairs: seq<Key>)
    ensures |pairs| == |rest|
  {
    if rest == [] then [] else [Key(x, rest[0], "co_accessed")] + PairsFrom(x, rest[1..])
  }

  function Pairs(ids: seq<nat>): seq<Key> {
    if ids == [] then [] else PairsFrom(ids[0], ids[1..]) + Pairs(ids[1..])
  }

  function UpsertAll(edges: Table, keys: seq<Key>, weight: int, now: nat): Table
    decreases |keys|
  {
    if keys == [] then edges else UpsertAll(Upserted(edges, keys[0], weight, now), keys[1..], weight, now)
  }

  class EdgeStore {
    var edges: Table

    constructor ()
      ensures edges == map[]
    {
      edges := map[];
    }

    method CreateEdge(k: Key, weight: int, now: nat)
      modifies this
      ensures edges == Upserted(old(edges), k, weight, now)
      ensures edges.Keys == old(edges).Keys + {k} && forall x :: x in old(edges) && x != k ==> edges[x] == old(edges)[x]
      ensures k !in old(edges) ==> edges[k] == Row(weight, 0, -1)
      ensures k in old(edges) ==>
                && edges[k].traversals == old(edges)[k].traversals + 1 && edges[k].last == now
                && edges[k].weight == if old(edges)[k].weight > 9500 then 10000 else old(edges)[k].weight + 500
    {
      if k in edges {
        var row := edges[k];
        edges := edges[k := Row(Min(MAX_WEIGHT, row.weight + BOOST), row.traversals + 1, now)];
        return;
      }
      edges := edges[k := Row(weight, 0, -1)];
    }

    method TrackCoAccess(ids: seq<nat>, now: nat) returns (count: nat)
      modifies this
      ensures edges == UpsertAll(old(edges), Pairs(ids), CO_ACCESS_WEIGHT, now)
      ensures count == |Pairs(ids)|
    {
      count := 0;
      for i := 0 to |ids|
        invariant UpsertAll(edges, Pairs(ids[i..]), CO_ACCESS_WEIGHT, now)
               == UpsertAll(old(edges), Pairs(ids), CO_ACCESS_WEIGHT, now)
        invariant count + |Pairs(ids[i..])| == |Pairs(ids)|
      {
        var later := ids[i + 1..];
        assert ids[i..][0] == ids[i] && ids[i..][1..] == later;
        UpsertAllAppend(edges, PairsFrom(ids[i], later), Pairs(later), CO_ACCESS_WEIGHT, now);
        ghost var before := edges;
        for j := 0 to |later|
          invariant UpsertAll(edges, PairsFrom(ids[i], later[j..]), CO_ACCESS_WEIGHT, now)
                 == UpsertAll(before, PairsFrom(ids[i], later), CO_ACCESS_WEIGHT, now)
          invariant count + |later| - j + |Pairs(later)| == |Pairs(ids)|
        {
          assert later[j..][0] == later[j] && later[j..][1..] == later[j + 1..];
          assert PairsFrom(ids[i], later[j..])[1..] == PairsFrom(ids[i], later[j + 1..]);
          CreateEdge(Key(ids[i], later[j], "co_accessed"), CO_ACCESS_WEIGHT, now);
          count := count + 1;
        }
      }
    }

    /** One UPDATE statement; the number returned is that of the rows it changed. */
    method DecayWeights(now: nat, days: nat) returns (count: nat)
      modifies this
      ensures edges == Decayed(old(edges), now, days)
      ensures edges.Keys == old(edges).Keys
      ensures forall k :: k in edges ==> Fades(old(edges)[k], edges[k], now, days)
      ensures count == |set k | k in old(edges) && Stale(old(edges)[k], now, days) && old(edges)[k].weight > MIN_WEIGHT|
    {
      count := |set k | k in edges && Stale(edges[k], now, days) && edges[k].weight > MIN_WEIGHT|;
      edges := map k | k in edges :: DecayedRow(edges[k], now, days);
    }

    method PruneWeakEdges() returns (count: nat)
      modifies this
      ensures edges == Pruned(old(edges))
      ensures forall k :: k in edges <==> k in old(edges) && old(edges)[k].weight >= 100
      ensures forall k :: k in edges ==> edges[k] == old(edges)[k]
      ensures count == |old(edges)| - |edges|
    {
      var kept := map k | k in edges && edges[k].weight >= MIN_WEIGHT :: edges[k];
      var gone := set k | k in edges && edges[k].weight < MIN_WEIGHT;
      assert edges.Keys == kept.Keys + gone;
      count := |gone|;
      edges := kept;
    }
  }

  /** Every action is carried out by the store. */
  method Perform(store: EdgeStore, a: Action)
    modifies store
    ensures store.edges == Act(old(store.edges), a)
  {
    match a
    case Upsert(k, weight, now) => store.CreateEdge(k, weight, now);
    case CoAccess(ids, now) => var _ := store.TrackCoAccess(ids, now);
    case Decay(now, days) => var _ := store.DecayWeights(now, days);
    case Prune => var _ := store.PruneWeakEdges();
  }

  /** A sweep touches the weight alone, and only above 0.01 and of an edge that was never traversed
      or last so many days ago: 95 hundredths of it are left, rounded to four decimals, but no
      less than 0.01. */
  predicate Fades(before: Row, after: Row, now: nat, days: nat) {
    if before.weight > 100 && (before.last == -1 || before.last < now - days)
    then
      && after == before.(weight := after.weight)
      && (after.weight == 100 || 95 * before.weight - 50 < 100 * after.weight <= 95 * before.weight + 50)
      && after.weight >= 100 && (after.weight == 100 ==> 95 * before.weight < 10050)
    else after == before
  }

  lemma {:induction false} UpsertAllAppend(edges: Table, a: seq<Key>, b: seq<Key>, weight: int, now: nat)
    ensures UpsertAll(edges, a + b, weight, now) == UpsertAll(UpsertAll(edges, a, weight, now), b, weight, now)
    decreases |a|
  {
    if a == [] {
      assert a + b == b;
    } else {
      assert (a + b)[1..] == a[1..] + b;
      UpsertAllAppend(Upserted(edges, a[0], weight, now), a[1..], b, weight, now);
    }
  }

  // ------------------------------------------------------------------
  // Runs of the whole store
  // ------------------------------------------------------------------

  datatype Action =
    | Upsert(key: Key, weight: int, now: nat)
    | CoAccess(ids: seq<nat>, now: nat)
    | Decay(now: nat, days: nat)
    | Prune

  function Act(edges: Table, a: Action): Table {
    match a
    case Upsert(k, weight, now) => Upserted(edges, k, weight, now)
    case CoAccess(ids, now) => UpsertAll(edges, Pairs(ids), CO_ACCESS_WEIGHT, now)
    case Decay(now, days) => Decayed(edges, now, days)
    case Prune => Pruned(edges)
  }

  function Run(edges: Table, actions: seq<Action>): Table
    decreases |actions|
  {
    if actions == [] then edges else Run(Act(edges, actions[0]), actions[1..])
  }

  predicate InRange(weight: int) {
    MIN_WEIGHT <= weight <= MAX_WEIGHT
  }

  ghost predicate Healthy(edges: Table, k: Key) {
    k in edges && InRange(edges[k].weight)
  }

  lemma {:induction false} UpsertAllKeeps(edges: Table, keys: seq<Key>, weight: int, now: nat, k: Key)
    requires Healthy(edges, k)
    ensures Healthy(UpsertAll(edges, keys, weight, now), k)
    decreases |keys|
  {
    if keys != [] {
      UpsertAllKeeps(Upserted(edges, keys[0], weight, now), keys[1..], weight, now, k);
    }
  }

  lemma {:induction false} ActKeeps(edges: Table, a: Action, k: Key)
    requires Healthy(edges, k)
    ensures Healthy(Act(edges, a), k)
  {
    if a.CoAccess? {
      UpsertAllKeeps(edges, Pairs(a.ids), CO_ACCESS_WEIGHT, a.now, k);
    }
  }

  /** An edge once in [0.01, 1.0] is never pruned and never leaves that range, whatever is
      boosted, decayed or pruned, and whatever weights other edges are inserted with. */
  lemma {:induction false} RunKeepsRange(edges: Table, actions: seq<Action>, k: Key)
    requires Healthy(edges, k)
    ensures Healthy(Run(edges, actions), k)
    decreases |actions|
  {
    if actions != [] {
      ActKeeps(edges, actions[0], k);
      RunKeepsRange(Act(edges, actions[0]), actions[1..], k);
    }
  }

  /** Pruning deletes an edge exactly when it lies below 0.01, which only an insertion below
      that bound, never a decay, can bring about. */
  lemma {:induction false} PruneDeletesIff(edges: Table, k: Key, now: nat, days: nat)
    requires k in edges
    ensures k !in Pruned(edges) <==> edges[k].weight < MIN_WEIGHT
    ensures k !in Pruned(Decayed(edges, now, days)) <==> edges[k].weight < MIN_WEIGHT
  {
    assert Decayed(edges, now, days)[k] == DecayedRow(edges[k], now, days);
  }

  // ------------------------------------------------------------------
  // Fading
  // ------------------------------------------------------------------

  /** A weight after n sweeps that all apply to it. */
  function FadedBy(weight: int, n: nat): int {
    if n == 0 then weight
    else FadedBy(if weight > MIN_WEIGHT then Faded(weight) else weight, n - 1)
  }

  /** One sweep takes at least 0.0005 off a weight above 0.01, or lands on 0.01. */
  lemma {:induction false} FadeStep(weight: int)
    requires weight > MIN_WEIGHT
    ensures Faded(weight) == MIN_WEIGHT || MIN_WEIGHT < Faded(weight) <= weight - 5
    ensures Faded(weight) == MIN_WEIGHT <==> weight <= 105
  {
  }

  /** n sweeps leave at most weight - 5n, and exactly 0.01 as soon as that bound reaches it. */
  lemma {:induction false} FadesAway(weight: int, n: nat)
    requires weight >= MIN_WEIGHT
    ensures MIN_WEIGHT <= FadedBy(weight, n) <= Max(MIN_WEIGHT, weight - 5 * n)
    ensures 5 * n >= weight - MIN_WEIGHT ==> FadedBy(weight, n) == MIN_WEIGHT
    decreases n
  {
    if n > 0 {
      if weight > MIN_WEIGHT {
        FadeStep(weight);
        FadesAway(Faded(weight), n - 1);
      } else {
        FadesAway(weight, n - 1);
      }
    }
  }

  predicate Touches(a: Action, k: Key) {
    match a
    case Upsert(key, _, _) => key == k
    case CoAccess(ids, _) => k in Pairs(ids)
    case Decay(_, _) => false
    case Prune => false
  }

  function Sweeps(actions: seq<Action>): nat {
    if actions == [] then 0 else (if actions[0].Decay? then 1 else 0) + Sweeps(actions[1..])
  }

  lemma {:induction false} UpsertAllElsewhere(edges: Table, keys: seq<Key>, weight: int, now: nat, k: Key)
    requires k !in keys
    ensures k in UpsertAll(edges, keys, weight, now) <==> k in edges
    ensures k in edges ==> UpsertAll(edges, keys, weight, now)[k] == edges[k]
    decreases |keys|
  {
    if keys != [] {
      assert keys[0] in keys && forall x :: x in keys[1..] ==> x in keys;
      UpsertAllElsewhere(Upserted(edges, keys[0], weight, now), keys[1..], weight, now, k);
    }
  }

  /** No action of the run touches the edge, and every sweep finds it stale. */
  ghost predicate Neglected(row: Row, k: Key, actions: seq<Action>) {
    forall i :: 0 <= i < |actions| ==>
      !Touches(actions[i], k) && (actions[i].Decay? ==> Stale(row, actions[i].now, actions[i].days))
  }

  /** A neglected edge is still there after the run, faded once for each sweep and by nothing else. */
  lemma {:induction false} UntouchedFades(edges: Table, actions: seq<Action>, k: Key)
    requires k in edges && edges[k].weight >= MIN_WEIGHT && Neglected(edges[k], k, actions)
    ensures k in Run(edges, actions)
    ensures Run(edges, actions)[k] == edges[k].(weight := FadedBy(edges[k].weight, Sweeps(actions)))
    decreases |actions|
  {
    if actions != [] {
      var a := actions[0];
      if a.CoAccess? {
        UpsertAllElsewhere(edges, Pairs(a.ids), CO_ACCESS_WEIGHT, a.now, k);
      }
      UntouchedFades(Act(edges, a), actions[1..], k);
    }
  }

  /** With as many sweeps as it is 0.0005-steps above the floor, it rests at exactly 0.01. */
  lemma {:induction false} UntouchedRestsAtFloor(edges: Table, actions: seq<Action>, k: Key)
    requires k in edges && edges[k].weight >= MIN_WEIGHT && Neglected(edges[k], k, actions)
    requires 5 * Sweeps(actions) >= edges[k].weight - MIN_WEIGHT
    ensures k in Run(edges, actions) && Run(edges, actions)[k].weight == MIN_WEIGHT
  {
    UntouchedFades(edges, actions, k);
    FadesAway(edges[k].weight, Sweeps(actions));
  }

  // ------------------------------------------------------------------
  // Co-access
  // ------------------------------------------------------------------

  lemma {:induction false} PairsFromHas(x: nat, rest: seq<nat>, k: Key)
    ensures k in PairsFrom(x, rest) <==> k.kind == "co_accessed" && k.source == x && k.target in rest
  {
    if rest != [] {
      PairsFromHas(x, rest[1..], k);
      assert k.target in rest <==> k.target == rest[0] || k.target in rest[1..];
    }
  }

  /** Exactly the pairs (earlier, later) of the list are linked. */
  lemma {:induction false} PairsHave(ids: seq<nat>, k: Key)
    ensures k in Pairs(ids) <==>
            k.kind == "co_accessed" && exists i, j :: 0 <= i < j < |ids| && ids[i] == k.source && ids[j] == k.target
  {
    if ids != [] {
      var rest := ids[1..];
      PairsFromHas(ids[0], rest, k);
      PairsHave(rest, k);
      if i, j :| 0 <= i < j < |ids| && ids[i] == k.source && ids[j] == k.target {
        if i == 0 {
          assert rest[j - 1] == k.target;
        } else {
          assert rest[i - 1] == k.source && rest[j - 1] == k.target;
        }
      }
      if i, j :| 0 <= i < j < |rest| && rest[i] == k.source && rest[j] == k.target {
        assert ids[i + 1] == k.source && ids[j + 1] == k.target;
      }
      if j :| 0 <= j < |rest| && rest[j] == k.target && k.source == ids[0] {
        assert ids[0] == k.source && ids[j + 1] == k.target;
      }
    }
  }

  lemma {:induction false} PairsCount(ids: seq<nat>)
    ensures 2 * |Pairs(ids)| == |ids| * (|ids| - 1)
  {
    if ids != [] {
      PairsCount(ids[1..]);
      assert |ids| * (|ids| - 1) == (|ids| - 1) * (|ids| - 2) + 2 * (|ids| - 1);
    }
  }

  lemma {:induction false} PairsDistinct(ids: seq<nat>)
    requires forall i, j :: 0 <= i < j < |ids| ==> ids[i] != ids[j]
    ensures forall i, j :: 0 <= i < j < |Pairs(ids)| ==> Pairs(ids)[i] != Pairs(ids)[j]
  {
    if ids != [] {
      var rest := ids[1..];
      PairsDistinct(rest);
      PairsFromAt(ids[0], rest);
      forall i, j | 0 <= i < |PairsFrom(ids[0], rest)| && 0 <= j < |Pairs(rest)|
        ensures PairsFrom(ids[0], rest)[i] != Pairs(rest)[j]
      {
        PairsHave(rest, Pairs(rest)[j]);
      }
    }
  }

  lemma {:induction false} PairsFromAt(x: nat, rest: seq<nat>)
    ensures forall i :: 0 <= i < |rest| ==> PairsFrom(x, rest)[i] == Key(x, rest[i], "co_accessed")
  {
    if rest != [] {
      PairsFromAt(x, rest[1..]);
      forall i | 0 < i < |rest| ensures PairsFrom(x, rest)[i] == Key(x, rest[i], "co_accessed") {
        assert PairsFrom(x, rest)[i] == PairsFrom(x, rest[1..])[i - 1];
      }
    }
  }

  /** Without repeated ids each pair is created or boosted exactly once, no other edge moves. */
  lemma {:induction false} CoAccessOnce(edges: Table, ids: seq<nat>, now: nat, k: Key)
    requires forall i, j :: 0 <= i < j < |ids| ==> ids[i] != ids[j]
    ensures var after := Act(edges, CoAccess(ids, now));
            var once := if k in Pairs(ids) then Upserted(edges, k, CO_ACCESS_WEIGHT, now) else edges;
            (k in after <==> k in once) && (k in after ==> after[k] == once[k])
    ensures var after := Act(edges, CoAccess(ids, now));
            && (k in Pairs(ids) && k !in edges ==> k in after && after[k] == Row(3000, 0, -1))
            && (k in Pairs(ids) && k in edges ==>
                  && k in after && after[k].traversals == edges[k].traversals + 1 && after[k].last == now
                  && after[k].weight == if edges[k].weight > 9500 then 10000 else edges[k].weight + 500)
            && (k !in Pairs(ids) ==> (k in after <==> k in edges) && (k in after ==> after[k] == edges[k]))
  {
    PairsDistinct(ids);
    UpsertDistinct(edges, Pairs(ids), now, k);
  }

  lemma {:induction false} UpsertDistinct(edges: Table, keys: seq<Key>, now: nat, k: Key)
    requires forall i, j :: 0 <= i < j < |keys| ==> keys[i] != keys[j]
    ensures var after := UpsertAll(edges, keys, CO_ACCESS_WEIGHT, now);
            var once := if k in keys then Upserted(edges, k, CO_ACCESS_WEIGHT, now) else edges;
            (k in after <==> k in once) && (k in after ==> after[k] == once[k])
    decreases |keys|
  {
    if keys != [] {
      var first := Upserted(edges, keys[0], CO_ACCESS_WEIGHT, now);
      assert k in keys <==> k == keys[0] || k in keys[1..];
      if k == keys[0] {
        UpsertAllElsewhere(first, keys[1..], CO_ACCESS_WEIGHT, now, k);
      } else {
        UpsertDistinct(first, keys[1..], now, k);
      }
    }
  }
}
