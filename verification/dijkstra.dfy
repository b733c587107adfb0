/**
 * `find_cheapest_path_dijkstra` of `src/network_graph.rs`: Dijkstra's
 * search from the source over unsaturated edges, stopping as soon as the
 * sink is popped, and returning the parent map and whether the sink was
 * found.
 *
 * The priority queue is a sequence of (distance, point) entries and a pop
 * removes one of least distance (ties between points are left open). A
 * missing distance reads as `f64::MAX`, modelled as larger than every
 * real distance.
 */
module Dijkstra {
  import opened Wrappers
  import opened Grids
  import opened Seqs
  import opened NetworkGraph

  datatype Entry = Entry(key: real, point: Point)

  /** What the search relies on: no parallel edges and no negative cost. */
  ghost predicate WellFormed(g: Graph) {
    NoParallel(g) && NonNegativeCosts(g)
  }

  /** What the relaxation loop relies on about one edge list: `find` locates each edge, and no cost is negative. */
  ghost predicate EdgesOk(es: seq<Edge>) {
    forall j :: 0 <= j < |es| ==> Find(es, es[j].to) == Some(j) && es[j].cost >= 0.0
  }

  lemma WellFormedEdges(g: Graph, u: Point)
    requires WellFormed(g)
    ensures EdgesOk(GetEdges(g, u))
  {
    forall j | 0 <= j < |GetEdges(g, u)| ensures Find(GetEdges(g, u), GetEdges(g, u)[j].to) == Some(j) {
      FindEdge(g, u, j);
    }
  }

  /** The edge `s -> v` can no longer improve `v`. */
  ghost predicate Relaxed(g: Graph, dist: map<Point, real>, s: Point, v: Point)
    requires s in dist && Step(g, s, v)
  {
    v in dist && dist[v] <= dist[s] + EdgeOf(g, s, v).cost
  }

  ghost predicate Basics(g: Graph, dist: map<Point, real>, parent: map<Point, Point>, settled: set<Point>) {
    && g.source in dist && dist[g.source] == 0.0 && g.source !in parent
    && dist.Keys <= Nodes(g) && settled <= dist.Keys && g.sink !in settled
    && (forall v :: v in dist ==> dist[v] >= 0.0)
  }

  /** Queue entries are never below the recorded distance nor below the last settled distance. */
  ghost predicate Entries(dist: map<Point, real>, pq: seq<Entry>, lastKey: real) {
    forall e :: e in pq ==> e.point in dist && dist[e.point] <= e.key && lastKey <= e.key
  }

  /** An unsettled recorded point still has its current entry queued. */
  ghost predicate Pending(dist: map<Point, real>, pq: seq<Entry>, settled: set<Point>) {
    forall v :: v in dist && v !in settled ==> Entry(dist[v], v) in pq
  }

  ghost predicate SettledBelow(dist: map<Point, real>, settled: set<Point>, lastKey: real)
    requires settled <= dist.Keys
  {
    forall s :: s in settled ==> dist[s] <= lastKey
  }

  /**
   * `parent_map` points at a settled predecessor whose edge accounts for the
   * recorded distance; `rank` numbers the settled points in settling order,
   * and a settled point was settled after its parent.
   */
  ghost predicate Parents(g: Graph, dist: map<Point, real>, parent: map<Point, Point>,
                          settled: set<Point>, rank: map<Point, nat>)
  {
    && (forall v {:trigger parent[v]} :: v in parent ==>
          && v in dist && parent[v] in settled && parent[v] in dist
          && Step(g, parent[v], v)
          && dist[v] == dist[parent[v]] + EdgeOf(g, parent[v], v).cost)
    && (forall v :: v in dist && v != g.source ==> v in parent)
    && rank.Keys == settled
    && (forall s :: s in settled ==> rank[s] < |settled|)
    && (forall v {:trigger parent[v]} :: v in parent && v in settled ==> rank[parent[v]] < rank[v])
  }

  ghost predicate Core(g: Graph, dist: map<Point, real>, parent: map<Point, Point>, pq: seq<Entry>,
                       settled: set<Point>, lastKey: real, rank: map<Point, nat>)
  {
    && Basics(g, dist, parent, settled)
    && Entries(dist, pq, lastKey)
    && Pending(dist, pq, settled)
    && SettledBelow(dist, settled, lastKey)
    && Parents(g, dist, parent, settled, rank)
  }

  /** Every unsaturated edge out of a settled point has been relaxed. */
  ghost predicate AllRelaxed(g: Graph, dist: map<Point, real>, settled: set<Point>)
    requires settled <= dist.Keys
  {
    forall s, v :: s in settled && Step(g, s, v) ==> Relaxed(g, dist, s, v)
  }

  ghost predicate Inv(g: Graph, dist: map<Point, real>, parent: map<Point, Point>, pq: seq<Entry>,
                      settled: set<Point>, lastKey: real, rank: map<Point, nat>)
  {
    && Core(g, dist, parent, pq, settled, lastKey, rank)
    && AllRelaxed(g, dist, settled)
  }

  /** The entry `BinaryHeap::pop` returns: one of least distance. */
  method ArgMinKey(pq: seq<Entry>) returns (i: nat)
    requires |pq| > 0
    ensures i < |pq|
    ensures forall e :: e in pq ==> pq[i].key <= e.key
  {
    i := 0;
    var j := 1;
    while j < |pq|
      invariant i < j <= |pq|
      invariant forall k :: 0 <= k < j ==> pq[i].key <= pq[k].key
    {
      if pq[j].key < pq[i].key {
        i := j;
      }
      j := j + 1;
    }
  }

  /** Dropping a stale entry keeps the loop state. */
  lemma StalePopKeeps(g: Graph, dist: map<Point, real>, parent: map<Point, Point>, pq: seq<Entry>,
                      settled: set<Point>, lastKey: real, rank: map<Point, nat>, i: nat)
    requires Inv(g, dist, parent, pq, settled, lastKey, rank)
    requires i < |pq| && pq[i].point in dist && pq[i].key > dist[pq[i].point]
    ensures Inv(g, dist, parent, pq[..i] + pq[i + 1..], settled, lastKey, rank)
  {
    var rest := pq[..i] + pq[i + 1..];
    RemoveSubset(pq, i);
    forall v | v in dist && v !in settled ensures Entry(dist[v], v) in rest {
      RemoveKeepsOthers(pq, i, Entry(dist[v], v));
    }
  }

  /** A popped entry that is not stale carries exactly the recorded distance. */
  lemma FreshPop(g: Graph, dist: map<Point, real>, parent: map<Point, Point>, pq: seq<Entry>,
                 settled: set<Point>, lastKey: real, rank: map<Point, nat>, i: nat)
    requires Inv(g, dist, parent, pq, settled, lastKey, rank)
    requires i < |pq| && forall e :: e in pq ==> pq[i].key <= e.key
    requires !(pq[i].point in dist && pq[i].key > dist[pq[i].point])
    ensures pq[i].point in dist && pq[i].key == dist[pq[i].point] && lastKey <= pq[i].key
    ensures pq[i].point in settled ==> pq[i].key == lastKey
  {
    assert pq[i] in pq;
  }

  /** Popping the least fresh entry (not the sink) and settling its point keeps the loop state. */
  lemma SettlePopKeeps(g: Graph, dist: map<Point, real>, parent: map<Point, Point>, pq: seq<Entry>,
                       settled: set<Point>, lastKey: real, rank: map<Point, nat>, i: nat)
    requires Inv(g, dist, parent, pq, settled, lastKey, rank)
    requires i < |pq| && forall e :: e in pq ==> pq[i].key <= e.key
    requires pq[i].point in dist && pq[i].key == dist[pq[i].point]
    requires pq[i].point != g.sink
    ensures var u := pq[i].point;
            var rest := pq[..i] + pq[i + 1..];
            var settled' := settled + {u};
            var rank' := if u in settled then rank else rank[u := |settled|];
            && Core(g, dist, parent, rest, settled', pq[i].key, rank')
            && (forall s, v :: s in settled && Step(g, s, v) ==> Relaxed(g, dist, s, v))
            && dist[u] == pq[i].key
  {
    SettleQueue(dist, pq, settled, lastKey, i);
    SettleParents(g, dist, parent, settled, rank, pq[i].point);
  }

  /** The queue side of settling the least fresh entry. */
  lemma SettleQueue(dist: map<Point, real>, pq: seq<Entry>, settled: set<Point>, lastKey: real, i: nat)
    requires settled <= dist.Keys
    requires Entries(dist, pq, lastKey) && Pending(dist, pq, settled) && SettledBelow(dist, settled, lastKey)
    requires i < |pq| && forall e :: e in pq ==> pq[i].key <= e.key
    requires pq[i].point in dist && pq[i].key == dist[pq[i].point]
    ensures var rest := pq[..i] + pq[i + 1..];
            var settled' := settled + {pq[i].point};
            && Entries(dist, rest, pq[i].key)
            && Pending(dist, rest, settled')
            && SettledBelow(dist, settled', pq[i].key)
  {
    var cur := pq[i];
    var rest := pq[..i] + pq[i + 1..];
    RemoveSubset(pq, i);
    assert cur in pq;
    forall v | v in dist && v !in settled + {cur.point} ensures Entry(dist[v], v) in rest {
      RemoveKeepsOthers(pq, i, Entry(dist[v], v));
      assert Entry(dist[v], v) in pq;
    }
    forall s | s in settled ensures dist[s] <= cur.key {
      assert dist[s] <= lastKey;
    }
  }

  /** The parent side of settling `u`: it takes the next rank unless already settled. */
  lemma SettleParents(g: Graph, dist: map<Point, real>, parent: map<Point, Point>,
                      settled: set<Point>, rank: map<Point, nat>, u: Point)
    requires Parents(g, dist, parent, settled, rank)
    ensures Parents(g, dist, parent, settled + {u}, if u in settled then rank else rank[u := |settled|])
  {
  }

  /** The state of the expansion of settled `u` after its first `k` edges. */
  ghost predicate Expansion(g: Graph, dist: map<Point, real>, parent: map<Point, Point>, pq: seq<Entry>,
                            settled: set<Point>, lastKey: real, rank: map<Point, nat>,
                            u: Point, du: real, newlySettled: bool, es: seq<Edge>, k: nat)
  {
    && k <= |es| && es == GetEdges(g, u) && EdgesOk(es)
    && Core(g, dist, parent, pq, settled, lastKey, rank)
    && settled <= dist.Keys && u in settled && dist[u] == du && du == lastKey
    && (!newlySettled ==> forall w :: Step(g, u, w) ==> Relaxed(g, dist, u, w))
    && (forall j :: 0 <= j < k && Step(g, u, es[j].to) ==> Relaxed(g, dist, u, es[j].to))
    && (forall s, w :: s in settled && s != u && Step(g, s, w) ==> Relaxed(g, dist, s, w))
  }

  /** Edge `k` of `u`, taken by the loop exactly when it is an unsaturated move. */
  lemma EdgeIsStep(g: Graph, u: Point, es: seq<Edge>, k: nat)
    requires es == GetEdges(g, u) && EdgesOk(es) && k < |es|
    ensures Find(es, es[k].to) == Some(k) && es[k].cost >= 0.0
    ensures Step(g, u, es[k].to) <==> Residual(es[k])
    ensures Step(g, u, es[k].to) ==> EdgeOf(g, u, es[k].to) == es[k]
  {
  }

  /** Only an unsettled point other than the source can be improved, and only by a newly settled `u`. */
  lemma ImproveTarget(g: Graph, dist: map<Point, real>, parent: map<Point, Point>, pq: seq<Entry>,
                      settled: set<Point>, lastKey: real, rank: map<Point, nat>,
                      u: Point, du: real, newlySettled: bool, es: seq<Edge>, k: nat)
    requires Expansion(g, dist, parent, pq, settled, lastKey, rank, u, du, newlySettled, es, k)
    requires k < |es| && Residual(es[k])
    requires es[k].to !in dist || du + es[k].cost < dist[es[k].to]
    ensures newlySettled && es[k].to !in settled && es[k].to != g.source && es[k].to in Nodes(g)
    ensures Step(g, u, es[k].to) && EdgeOf(g, u, es[k].to) == es[k] && es[k].cost >= 0.0
  {
    EdgeIsStep(g, u, es, k);
    StepInNodes(g, u, es[k].to);
  }

  /** Relaxing edge `k` when it improves its target: the expansion state moves on to `k + 1`. */
  lemma ImproveStep(g: Graph, dist: map<Point, real>, parent: map<Point, Point>, pq: seq<Entry>,
                    settled: set<Point>, lastKey: real, rank: map<Point, nat>,
                    u: Point, du: real, newlySettled: bool, es: seq<Edge>, k: nat, v: Point, d: real)
    requires Expansion(g, dist, parent, pq, settled, lastKey, rank, u, du, newlySettled, es, k)
    requires k < |es| && Residual(es[k]) && v == es[k].to && d == du + es[k].cost
    requires v !in dist || d < dist[v]
    ensures Expansion(g, dist[v := d], parent[v := u], pq + [Entry(d, v)], settled, lastKey, rank,
                      u, du, newlySettled, es, k + 1)
  {
    ImproveTarget(g, dist, parent, pq, settled, lastKey, rank, u, du, newlySettled, es, k);
    ImproveCore(g, dist, parent, pq, settled, lastKey, rank, u, v, d);
    ImproveRelaxed(g, dist, settled, u, es, k, d);
    ExpansionIntro(g, dist[v := d], parent[v := u], pq + [Entry(d, v)], settled, lastKey, rank,
                   u, du, newlySettled, es, k + 1);
  }

  /** Recording the improved distance of `v` through `u` keeps the core invariant. */
  lemma ImproveCore(g: Graph, dist: map<Point, real>, parent: map<Point, Point>, pq: seq<Entry>,
                    settled: set<Point>, lastKey: real, rank: map<Point, nat>,
                    u: Point, v: Point, d: real)
    requires Core(g, dist, parent, pq, settled, lastKey, rank)
    requires u in settled && v !in settled && v != g.source && v in Nodes(g)
    requires Step(g, u, v) && d == dist[u] + EdgeOf(g, u, v).cost && lastKey <= d
    requires v !in dist || d < dist[v]
    ensures Core(g, dist[v := d], parent[v := u], pq + [Entry(d, v)], settled, lastKey, rank)
  {
    ImproveBasics(g, dist, parent, settled, lastKey, u, v, d);
    ImproveQueue(dist, pq, settled, lastKey, v, d);
    ImproveParents(g, dist, parent, settled, rank, u, v, d);
  }

  lemma ImproveBasics(g: Graph, dist: map<Point, real>, parent: map<Point, Point>, settled: set<Point>,
                      lastKey: real, u: Point, v: Point, d: real)
    requires Basics(g, dist, parent, settled) && SettledBelow(dist, settled, lastKey)
    requires u in settled && v !in settled && v != g.source && v in Nodes(g) && lastKey <= d
    ensures Basics(g, dist[v := d], parent[v := u], settled)
  {
    assert dist[u] <= lastKey;
  }

  /** The queue side of recording `d` for unsettled `v`: its new entry is queued. */
  lemma ImproveQueue(dist: map<Point, real>, pq: seq<Entry>, settled: set<Point>, lastKey: real, v: Point, d: real)
    requires settled <= dist.Keys && v !in settled && lastKey <= d
    requires Entries(dist, pq, lastKey) && Pending(dist, pq, settled) && SettledBelow(dist, settled, lastKey)
    requires v !in dist || d < dist[v]
    ensures Entries(dist[v := d], pq + [Entry(d, v)], lastKey)
    ensures Pending(dist[v := d], pq + [Entry(d, v)], settled)
    ensures SettledBelow(dist[v := d], settled, lastKey)
  {
    var dist', pq' := dist[v := d], pq + [Entry(d, v)];
    forall e | e in pq' ensures e.point in dist' && dist'[e.point] <= e.key && lastKey <= e.key {
      if e != Entry(d, v) {
        assert e in pq;
      }
    }
  }

  /** The parent side: `v` gets parent `u`, whose edge accounts for `d`. */
  lemma ImproveParents(g: Graph, dist: map<Point, real>, parent: map<Point, Point>,
                       settled: set<Point>, rank: map<Point, nat>, u: Point, v: Point, d: real)
    requires Parents(g, dist, parent, settled, rank) && settled <= dist.Keys
    requires u in settled && v !in settled
    requires Step(g, u, v) && d == dist[u] + EdgeOf(g, u, v).cost
    ensures Parents(g, dist[v := d], parent[v := u], settled, rank)
  {
    var dist', parent' := dist[v := d], parent[v := u];
    forall w | w in parent'
      ensures && w in dist' && parent'[w] in settled && parent'[w] in dist'
              && Step(g, parent'[w], w)
              && dist'[w] == dist'[parent'[w]] + EdgeOf(g, parent'[w], w).cost
    {
      if w != v {
        var x := parent[w];
        assert parent'[w] == x && x in settled && x != v;
        assert dist'[w] == dist[w] && dist'[x] == dist[x];
      }
    }
    assert forall w :: w in dist' && w != g.source ==> w in parent';
  }

  /** After improving `es[k].to`, the edges relaxed so far stay relaxed and so does edge `k`. */
  lemma ImproveRelaxed(g: Graph, dist: map<Point, real>, settled: set<Point>,
                       u: Point, es: seq<Edge>, k: nat, d: real)
    requires settled <= dist.Keys && u in settled && es[..] == GetEdges(g, u) && k < |es|
    requires es[k].to !in settled && Step(g, u, es[k].to)
    requires d == dist[u] + EdgeOf(g, u, es[k].to).cost
    requires es[k].to !in dist || d < dist[es[k].to]
    requires forall j :: 0 <= j < k && Step(g, u, es[j].to) ==> Relaxed(g, dist, u, es[j].to)
    requires forall s, w :: s in settled && s != u && Step(g, s, w) ==> Relaxed(g, dist, s, w)
    ensures var dist' := dist[es[k].to := d];
            && dist'[u] == dist[u]
            && (forall j :: 0 <= j < k + 1 && Step(g, u, es[j].to) ==> Relaxed(g, dist', u, es[j].to))
            && (forall s, w :: s in settled && s != u && Step(g, s, w) ==> Relaxed(g, dist', s, w))
  {
  }

  /** Assembles the expansion state from its parts. */
  lemma ExpansionIntro(g: Graph, dist: map<Point, real>, parent: map<Point, Point>, pq: seq<Entry>,
                       settled: set<Point>, lastKey: real, rank: map<Point, nat>,
                       u: Point, du: real, newlySettled: bool, es: seq<Edge>, k: nat)
    requires k <= |es| && es == GetEdges(g, u) && EdgesOk(es) && newlySettled
    requires Core(g, dist, parent, pq, settled, lastKey, rank)
    requires settled <= dist.Keys && u in settled && dist[u] == du && du == lastKey
    requires forall j :: 0 <= j < k && Step(g, u, es[j].to) ==> Relaxed(g, dist, u, es[j].to)
    requires forall s, w :: s in settled && s != u && Step(g, s, w) ==> Relaxed(g, dist, s, w)
    ensures Expansion(g, dist, parent, pq, settled, lastKey, rank, u, du, newlySettled, es, k)
  {
  }

  /** Skipping edge `k` (saturated, or no improvement): it is already relaxed. */
  lemma SkipStep(g: Graph, dist: map<Point, real>, parent: map<Point, Point>, pq: seq<Entry>,
                 settled: set<Point>, lastKey: real, rank: map<Point, nat>,
                 u: Point, du: real, newlySettled: bool, es: seq<Edge>, k: nat)
    requires Expansion(g, dist, parent, pq, settled, lastKey, rank, u, du, newlySettled, es, k)
    requires k < |es|
    requires !Residual(es[k]) || (es[k].to in dist && dist[es[k].to] <= du + es[k].cost)
    ensures Expansion(g, dist, parent, pq, settled, lastKey, rank, u, du, newlySettled, es, k + 1)
  {
    EdgeIsStep(g, u, es, k);
  }

  /** Once every edge of `u` is relaxed, the full invariant holds again. */
  lemma ExpansionDone(g: Graph, dist: map<Point, real>, parent: map<Point, Point>, pq: seq<Entry>,
                      settled: set<Point>, lastKey: real, rank: map<Point, nat>,
                      u: Point, du: real, newlySettled: bool, es: seq<Edge>)
    requires Expansion(g, dist, parent, pq, settled, lastKey, rank, u, du, newlySettled, es, |es|)
    ensures Inv(g, dist, parent, pq, settled, lastKey, rank)
  {
    forall s, w | s in settled && Step(g, s, w) ensures Relaxed(g, dist, s, w) {
      if s == u {
        var j := Find(es, w).value;
        assert es[j].to == w;
      }
    }
  }

  /**
   * The `for edge in self.get_edges(&u)` loop: relax every unsaturated edge
   * of the popped point `u` in order, queueing an entry for each improved
   * target and recording `u` as its parent.
   */
  method Expand(g: Graph, dist0: map<Point, real>, parent0: map<Point, Point>, pq0: seq<Entry>,
                ghost settled: set<Point>, ghost lastKey: real, ghost rank: map<Point, nat>,
                u: Point, cost: real, ghost newlySettled: bool)
    returns (dist: map<Point, real>, parent: map<Point, Point>, pq: seq<Entry>)
    requires Core(g, dist0, parent0, pq0, settled, lastKey, rank) && EdgesOk(GetEdges(g, u))
    requires u in settled && dist0[u] == cost && cost == lastKey
    requires !newlySettled ==> forall w :: Step(g, u, w) ==> Relaxed(g, dist0, u, w)
    requires forall s, w :: s in settled && s != u && Step(g, s, w) ==> Relaxed(g, dist0, s, w)
    ensures Inv(g, dist, parent, pq, settled, lastKey, rank)
    ensures !newlySettled ==> dist == dist0 && parent == parent0 && pq == pq0
  {
    dist, parent, pq := dist0, parent0, pq0;
    var es := GetEdges(g, u);
    var k := 0;
    while k < |es|
      invariant Expansion(g, dist, parent, pq, settled, lastKey, rank, u, cost, newlySettled, es, k)
      invariant !newlySettled ==> dist == dist0 && parent == parent0 && pq == pq0
      decreases |es| - k
    {
      dist, parent, pq := RelaxEdge(g, dist, parent, pq, settled, lastKey, rank, u, cost, newlySettled, es, k);
      k := k + 1;
    }
    ExpansionDone(g, dist, parent, pq, settled, lastKey, rank, u, cost, newlySettled, es);
  }

  /** One turn of the relaxation loop: edge `k` of `u`, taken only when unsaturated and improving. */
  method RelaxEdge(g: Graph, dist0: map<Point, real>, parent0: map<Point, Point>, pq0: seq<Entry>,
                   ghost settled: set<Point>, ghost lastKey: real, ghost rank: map<Point, nat>,
                   u: Point, cost: real, ghost newlySettled: bool, es: seq<Edge>, k: nat)
    returns (dist: map<Point, real>, parent: map<Point, Point>, pq: seq<Entry>)
    requires Expansion(g, dist0, parent0, pq0, settled, lastKey, rank, u, cost, newlySettled, es, k)
    requires k < |es|
    ensures Expansion(g, dist, parent, pq, settled, lastKey, rank, u, cost, newlySettled, es, k + 1)
    ensures !newlySettled ==> dist == dist0 && parent == parent0 && pq == pq0
  {
    dist, parent, pq := dist0, parent0, pq0;
    var edge := es[k];
    if edge.capacity > edge.flow {
      var newDist := cost + edge.cost;
      if edge.to !in dist || newDist < dist[edge.to] {
        ImproveStep(g, dist, parent, pq, settled, lastKey, rank, u, cost, newlySettled, es, k, edge.to, newDist);
        ImproveTarget(g, dist, parent, pq, settled, lastKey, rank, u, cost, newlySettled, es, k);
        dist := dist[edge.to := newDist];
        pq := pq + [Entry(newDist, edge.to)];
        parent := parent[edge.to := u];
        return;
      }
    }
    SkipStep(g, dist, parent, pq, settled, lastKey, rank, u, cost, newlySettled, es, k);
  }


  /** Walks from the source through settled points reach points no farther than the walk's cost. */
  lemma {:induction false} SettledWalk(g: Graph, dist: map<Point, real>, settled: set<Point>, p: seq<Point>)
    requires settled <= dist.Keys && g.source in dist && dist[g.source] == 0.0
    requires AllRelaxed(g, dist, settled)
    requires IsWalk(g, p) && p[0] == g.source
    requires forall j :: 0 <= j < |p| - 1 ==> p[j] in settled
    ensures p[|p| - 1] in dist && dist[p[|p| - 1]] <= WalkCost(g, p)
    decreases |p|
  {
    if |p| > 1 {
      var q := p[..|p| - 1];
      assert IsWalk(g, q) by {
        forall j | 0 <= j < |q| - 1 ensures Step(g, q[j], q[j + 1]) {
          assert q[j] == p[j] && q[j + 1] == p[j + 1];
        }
      }
      SettledWalk(g, dist, settled, q);
      assert p == q + [p[|p| - 1]];
      assert Step(g, q[|q| - 1], p[|p| - 1]);
      WalkCostSnoc(g, q, p[|p| - 1]);
    }
  }

  /** Extending a walk by one move adds that move's cost. */
  lemma {:induction false} WalkCostSnoc(g: Graph, p: seq<Point>, x: Point)
    requires IsWalk(g, p) && Step(g, p[|p| - 1], x)
    ensures IsWalk(g, p + [x])
    ensures WalkCost(g, p + [x]) == WalkCost(g, p) + EdgeOf(g, p[|p| - 1], x).cost
    decreases |p|
  {
    var px := p + [x];
    assert IsWalk(g, px) by {
      forall j | 0 <= j < |px| - 1 ensures Step(g, px[j], px[j + 1]) {
        if j < |p| - 1 {
          assert px[j] == p[j] && px[j + 1] == p[j + 1];
        }
      }
    }
    if |p| > 1 {
      var q := p[1..];
      assert IsWalk(g, q) by {
        forall j | 0 <= j < |q| - 1 ensures Step(g, q[j], q[j + 1]) {
          assert q[j] == p[j + 1] && q[j + 1] == p[j + 2];
        }
      }
      assert px[1..] == q + [x];
      WalkCostSnoc(g, q, x);
    }
  }

  /** Splitting a walk at an interior point splits its cost. */
  lemma {:induction false} WalkCostSplit(g: Graph, p: seq<Point>, i: nat)
    requires IsWalk(g, p) && i < |p|
    ensures IsWalk(g, p[..i + 1]) && IsWalk(g, p[i..])
    ensures WalkCost(g, p) == WalkCost(g, p[..i + 1]) + WalkCost(g, p[i..])
    decreases i
  {
    var pre, post := p[..i + 1], p[i..];
    assert IsWalk(g, pre) by {
      forall j | 0 <= j < |pre| - 1 ensures Step(g, pre[j], pre[j + 1]) {
        assert pre[j] == p[j] && pre[j + 1] == p[j + 1];
      }
    }
    assert IsWalk(g, post) by {
      forall j | 0 <= j < |post| - 1 ensures Step(g, post[j], post[j + 1]) {
        assert post[j] == p[i + j] && post[j + 1] == p[i + j + 1];
      }
    }
    if i > 0 {
      var q := p[1..];
      assert IsWalk(g, q) by {
        forall j | 0 <= j < |q| - 1 ensures Step(g, q[j], q[j + 1]) {
          assert q[j] == p[j + 1] && q[j + 1] == p[j + 2];
        }
      }
      assert q[..i] == p[1..i + 1];
      assert q[i - 1..] == p[i..];
      WalkCostSplit(g, q, i - 1);
      assert pre[1..] == p[1..i + 1];
    }
  }

  /** With the least queued distance `k` and the sink unsettled, every walk to the sink costs at least `k`. */
  lemma PopIsLowerBound(g: Graph, dist: map<Point, real>, parent: map<Point, Point>, pq: seq<Entry>,
                        settled: set<Point>, lastKey: real, rank: map<Point, nat>, k: real, p: seq<Point>)
    requires NonNegativeCosts(g) && Inv(g, dist, parent, pq, settled, lastKey, rank)
    requires forall e :: e in pq ==> k <= e.key
    requires WalkBetween(g, p, g.source, g.sink)
    ensures k <= WalkCost(g, p)
  {
    var i := FirstOutside(p, settled);
    var w := p[i];
    WalkCostSplit(g, p, i);
    SettledWalk(g, dist, settled, p[..i + 1]);
    WalkCostNonNegative(g, p[i..]);
    assert Entry(dist[w], w) in pq;
  }

  /** Once the queue is empty, walks from the source stay among settled points, so none reaches the sink. */
  lemma {:induction false} ExhaustedUnreachable(g: Graph, dist: map<Point, real>, parent: map<Point, Point>,
                                                settled: set<Point>, lastKey: real, rank: map<Point, nat>,
                                                p: seq<Point>)
    requires Inv(g, dist, parent, [], settled, lastKey, rank)
    requires IsWalk(g, p) && p[0] == g.source
    ensures p[|p| - 1] in settled && p[|p| - 1] != g.sink
    decreases |p|
  {
    if |p| > 1 {
      var q := p[..|p| - 1];
      assert IsWalk(g, q) by {
        forall j | 0 <= j < |q| - 1 ensures Step(g, q[j], q[j + 1]) {
          assert q[j] == p[j] && q[j + 1] == p[j + 1];
        }
      }
      ExhaustedUnreachable(g, dist, parent, settled, lastKey, rank, q);
      assert Step(g, q[|q| - 1], p[|p| - 1]);
    } else {
      assert g.source in dist;
    }
  }

  /** Some walk of unsaturated edges leads from the source to the sink. */
  ghost predicate SinkReachable(g: Graph) {
    exists p :: WalkBetween(g, p, g.source, g.sink)
  }

  /**
   * The parent map `find_cheapest_path_dijkstra` hands back on success:
   * following parents from the sink reaches the source through strictly
   * decreasing ranks, along unsaturated edges that account for `dist`.
   */
  ghost predicate ParentTree(g: Graph, parent: map<Point, Point>, dist: map<Point, real>, rank: map<Point, nat>) {
    && g.source in dist && dist[g.source] == 0.0 && g.source !in parent
    && g.sink in rank && g.sink in dist
    && (g.sink != g.source ==> g.sink in parent)
    && (forall v {:trigger parent[v]} :: v in parent && v in rank ==>
          && v in dist && parent[v] in rank && parent[v] in dist
          && rank[parent[v]] < rank[v]
          && Step(g, parent[v], v)
          && dist[v] == dist[parent[v]] + EdgeOf(g, parent[v], v).cost
          && (parent[v] != g.source ==> parent[v] in parent))
  }

  /** The sink has just been popped fresh: the parent map is a tree rooted at the source. */
  lemma SinkTree(g: Graph, dist: map<Point, real>, parent: map<Point, Point>, pq: seq<Entry>,
                 settled: set<Point>, lastKey: real, rank: map<Point, nat>)
    requires Basics(g, dist, parent, settled) && Parents(g, dist, parent, settled, rank) && g.sink in dist
    ensures ParentTree(g, parent, dist, rank[g.sink := |settled|])
  {
    var rank' := rank[g.sink := |settled|];
    forall v | v in parent && v in rank'
      ensures && v in dist && parent[v] in rank' && parent[v] in dist
              && rank'[parent[v]] < rank'[v]
              && Step(g, parent[v], v)
              && dist[v] == dist[parent[v]] + EdgeOf(g, parent[v], v).cost
              && (parent[v] != g.source ==> parent[v] in parent)
    {
      var x := parent[v];
      assert x in settled && x != g.sink && rank'[x] == rank[x] < |settled|;
      if v != g.sink {
        assert v in settled && rank'[v] == rank[v];
      }
    }
  }

  /** The sink has been popped fresh: the tree reaches it, and no walk to it is cheaper. */
  lemma SinkFound(g: Graph, dist: map<Point, real>, parent: map<Point, Point>, pq: seq<Entry>,
                  settled: set<Point>, lastKey: real, rank: map<Point, nat>, i: nat)
    requires NonNegativeCosts(g) && Inv(g, dist, parent, pq, settled, lastKey, rank)
    requires i < |pq| && forall e :: e in pq ==> pq[i].key <= e.key
    requires pq[i].point == g.sink && g.sink in dist && pq[i].key == dist[g.sink]
    ensures ParentTree(g, parent, dist, rank[g.sink := |settled|]) && SinkReachable(g)
    ensures forall p :: WalkBetween(g, p, g.source, g.sink) ==> dist[g.sink] <= WalkCost(g, p)
  {
    SinkTree(g, dist, parent, pq, settled, lastKey, rank);
    forall p | WalkBetween(g, p, g.source, g.sink) ensures dist[g.sink] <= WalkCost(g, p) {
      PopIsLowerBound(g, dist, parent, pq, settled, lastKey, rank, pq[i].key, p);
    }
    ReachableFromTree(g, parent, dist, rank[g.sink := |settled|]);
  }

  /** One fresh, non-sink pop: settle, relax, and report progress. */
  method Advance(g: Graph, dist0: map<Point, real>, parent0: map<Point, Point>, pq0: seq<Entry>,
                 ghost settled0: set<Point>, ghost lastKey0: real, ghost rank0: map<Point, nat>, i: nat)
    returns (dist: map<Point, real>, parent: map<Point, Point>, pq: seq<Entry>,
             ghost settled: set<Point>, ghost lastKey: real, ghost rank: map<Point, nat>)
    requires WellFormed(g) && Inv(g, dist0, parent0, pq0, settled0, lastKey0, rank0)
    requires i < |pq0| && forall e :: e in pq0 ==> pq0[i].key <= e.key
    requires pq0[i].point in dist0 && pq0[i].key == dist0[pq0[i].point]
    requires pq0[i].point != g.sink
    ensures Inv(g, dist, parent, pq, settled, lastKey, rank)
    ensures |Nodes(g) - settled| < |Nodes(g) - settled0| ||
            (settled == settled0 && |pq| < |pq0|)
  {
    SettlePopKeeps(g, dist0, parent0, pq0, settled0, lastKey0, rank0, i);
    WellFormedEdges(g, pq0[i].point);
    var cost := pq0[i].key;
    var u := pq0[i].point;
    var rest := pq0[..i] + pq0[i + 1..];
    ghost var newlySettled := u !in settled0;
    settled := settled0 + {u};
    lastKey := cost;
    rank := if newlySettled then rank0[u := |settled0|] else rank0;
    dist, parent, pq := Expand(g, dist0, parent0, rest, settled, lastKey, rank, u, cost, newlySettled);
    if newlySettled {
      SettleShrinks(Nodes(g), settled0, u);
    }
  }

  /** Settling a new point of the network leaves fewer points unsettled. */
  lemma SettleShrinks(nodes: set<Point>, settled: set<Point>, u: Point)
    requires u in nodes && u !in settled
    ensures |nodes - (settled + {u})| < |nodes - settled|
  {
    assert nodes - (settled + {u}) == (nodes - settled) - {u};
  }

  /** The search starts with the source alone, at distance 0 and queued. */
  lemma InitialInv(g: Graph)
    requires WellFormed(g)
    ensures Inv(g, map[g.source := 0.0], map[], [Entry(0.0, g.source)], {}, 0.0, map[])
  {
  }

  /**
   * One turn of the `while let Some(...) = pq.pop()` loop: a stale entry is
   * dropped, the sink ends the search (`done`) with its parent tree, and any
   * other point is settled and its edges relaxed.
   */
  method Turn(g: Graph, dist0: map<Point, real>, parent0: map<Point, Point>, pq0: seq<Entry>,
              ghost settled0: set<Point>, ghost lastKey0: real, ghost rank0: map<Point, nat>)
    returns (dist: map<Point, real>, parent: map<Point, Point>, pq: seq<Entry>,
             ghost settled: set<Point>, ghost lastKey: real, ghost rank: map<Point, nat>, done: bool)
    requires WellFormed(g) && Inv(g, dist0, parent0, pq0, settled0, lastKey0, rank0) && |pq0| > 0
    ensures done ==> ParentTree(g, parent, dist, rank) && SinkReachable(g)
    ensures done ==> forall p :: WalkBetween(g, p, g.source, g.sink) ==> dist[g.sink] <= WalkCost(g, p)
    ensures !done ==> Inv(g, dist, parent, pq, settled, lastKey, rank)
    ensures !done ==> |Nodes(g) - settled| < |Nodes(g) - settled0| || (settled == settled0 && |pq| < |pq0|)
  {
    var i := ArgMinKey(pq0);
    var cost := pq0[i].key;
    var u := pq0[i].point;
    dist, parent, settled, lastKey, rank, done := dist0, parent0, settled0, lastKey0, rank0, false;
    if u in dist0 && cost > dist0[u] {
      StalePopKeeps(g, dist0, parent0, pq0, settled0, lastKey0, rank0, i);
      pq := pq0[..i] + pq0[i + 1..];
      return;
    }
    FreshPop(g, dist0, parent0, pq0, settled0, lastKey0, rank0, i);
    if u == g.sink {
      SinkFound(g, dist0, parent0, pq0, settled0, lastKey0, rank0, i);
      pq, rank, done := pq0, rank0[g.sink := |settled0|], true;
      return;
    }
    dist, parent, pq, settled, lastKey, rank := Advance(g, dist0, parent0, pq0, settled0, lastKey0, rank0, i);
  }

  /**
   * `find_cheapest_path_dijkstra`: `found` exactly when some walk of
   * unsaturated edges leads from the source to the sink; then the parent
   * map is a tree that reaches the sink at a distance no walk undercuts.
   */
  method FindCheapestPath(g: Graph)
    returns (parent: map<Point, Point>, found: bool, ghost dist: map<Point, real>, ghost rank: map<Point, nat>)
    requires WellFormed(g)
    ensures found <==> SinkReachable(g)
    ensures found ==> ParentTree(g, parent, dist, rank)
    ensures found ==> forall p :: WalkBetween(g, p, g.source, g.sink) ==> dist[g.sink] <= WalkCost(g, p)
  {
    var distances := map[g.source := 0.0];
    parent := map[];
    var pq := [Entry(0.0, g.source)];
    ghost var settled: set<Point> := {};
    ghost var lastKey: real := 0.0;
    ghost var rank0: map<Point, nat> := map[];
    InitialInv(g);
    while |pq| > 0
      invariant Inv(g, distances, parent, pq, settled, lastKey, rank0)
      decreases |Nodes(g) - settled|, |pq|
    {
      var done;
      distances, parent, pq, settled, lastKey, rank0, done := Turn(g, distances, parent, pq, settled, lastKey, rank0);
      if done {
        return parent, true, distances, rank0;
      }
    }
    Exhausted(g, distances, parent, settled, lastKey, rank0);
    found := g.sink in distances;
    dist, rank := distances, rank0;
  }

  /** An exhausted queue means no walk reaches the sink, which then has no distance. */
  lemma Exhausted(g: Graph, dist: map<Point, real>, parent: map<Point, Point>,
                  settled: set<Point>, lastKey: real, rank: map<Point, nat>)
    requires Inv(g, dist, parent, [], settled, lastKey, rank)
    ensures !SinkReachable(g) && g.sink !in dist
  {
    forall p | WalkBetween(g, p, g.source, g.sink) ensures false {
      ExhaustedUnreachable(g, dist, parent, settled, lastKey, rank, p);
    }
  }

  /** A parent tree yields a walk from the source to the sink. */
  lemma ReachableFromTree(g: Graph, parent: map<Point, Point>, dist: map<Point, real>, rank: map<Point, nat>)
    requires ParentTree(g, parent, dist, rank)
    ensures SinkReachable(g)
  {
    var p := TreePath(g, parent, dist, rank);
  }

  /**
   * Following parents from the sink back to the source, as the
   * reconstruction loops of `route_cheapest_path` and `edmonds_karp` do:
   * a walk of unsaturated edges through distinct points whose cost is the
   * sink's distance.
   */
  lemma TreePath(g: Graph, parent: map<Point, Point>, dist: map<Point, real>, rank: map<Point, nat>)
    returns (path: seq<Point>)
    requires ParentTree(g, parent, dist, rank)
    ensures WalkBetween(g, path, g.source, g.sink) && Distinct(path)
    ensures WalkCost(g, path) == dist[g.sink]
  {
    var curr := g.sink;
    path := [curr];
    while curr != g.source
      invariant curr in rank && curr in dist && (curr != g.source ==> curr in parent)
      invariant |path| > 0 && path[0] == curr && path[|path| - 1] == g.sink
      invariant IsWalk(g, path) && Distinct(path)
      invariant forall j :: 0 < j < |path| ==> path[j] in rank && rank[curr] < rank[path[j]]
      invariant WalkCost(g, path) + dist[curr] == dist[g.sink]
      decreases rank[curr]
    {
      PrependParent(g, parent, dist, rank, path);
      path := [parent[curr]] + path;
      curr := parent[curr];
    }
  }

  /** One step back along the tree: prepending the parent keeps a distinct walk and moves its cost into the walk. */
  lemma PrependParent(g: Graph, parent: map<Point, Point>, dist: map<Point, real>, rank: map<Point, nat>,
                      path: seq<Point>)
    requires ParentTree(g, parent, dist, rank)
    requires IsWalk(g, path) && Distinct(path) && path[0] in parent && path[0] in rank
    requires forall j :: 0 < j < |path| ==> path[j] in rank && rank[path[0]] < rank[path[j]]
    ensures var prev := parent[path[0]];
            && prev in rank && prev in dist && (prev != g.source ==> prev in parent)
            && rank[prev] < rank[path[0]]
            && IsWalk(g, [prev] + path) && Distinct([prev] + path)
            && (forall j :: 0 < j < |[prev] + path| ==> ([prev] + path)[j] in rank && rank[prev] < rank[([prev] + path)[j]])
            && WalkCost(g, [prev] + path) == EdgeOf(g, prev, path[0]).cost + WalkCost(g, path)
            && dist[path[0]] == dist[prev] + EdgeOf(g, prev, path[0]).cost
  {
    var prev := parent[path[0]];
    var p := [prev] + path;
    assert p[1..] == path;
    assert IsWalk(g, p) by {
      forall j | 0 <= j < |p| - 1 ensures Step(g, p[j], p[j + 1]) {
        if j > 0 {
          assert p[j] == path[j - 1] && p[j + 1] == path[j];
        }
      }
    }
    forall j | 0 < j < |p| ensures p[j] in rank && rank[prev] < rank[p[j]] {
      assert p[j] == path[j - 1];
    }
  }

}
