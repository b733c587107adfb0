/**
 * A* search of `src/pathfinding.rs`, written once over an abstract
 * successor function, move cost and heuristic so that both the plain grid
 * search (`a_star`, unit moves) and the automaton-cost search of the
 * behavioural-analysis example share it.
 *
 * The `BinaryHeap` frontier is a sequence; a pop removes an entry of least
 * g + h (the heap's own tie-breaking is not modelled, and nothing below
 * depends on it). `cost_so_far` and `came_from` are maps.
 */
module Pathfinding {
  import opened Arith
  import opened Wrappers
  import opened Grids
  import opened SearchNode
  import opened Seqs

  const U32_LIMIT: nat := 0x1_0000_0000

  /** One search: successor order, move cost, heuristic and the two endpoints. */
  datatype Problem = Problem(
    succ: Point -> seq<Point>,
    step: (Point, Point) -> nat,
    h: Point -> nat,
    start: Point,
    goal: Point)

  /** A non-empty sequence whose every step is a successor move. */
  ghost predicate IsWalk(pb: Problem, p: seq<Point>) {
    |p| > 0 && forall i :: 0 <= i < |p| - 1 ==> p[i + 1] in pb.succ(p[i])
  }

  ghost predicate WalkBetween(pb: Problem, p: seq<Point>, a: Point, b: Point) {
    IsWalk(pb, p) && p[0] == a && p[|p| - 1] == b
  }

  /** Sum of the move costs along a walk. */
  ghost function WalkCost(pb: Problem, p: seq<Point>): nat
    decreases |p|
  {
    if |p| < 2 then 0 else pb.step(p[0], p[1]) + WalkCost(pb, p[1..])
  }

  /**
   * What the search relies on: the points it can reach lie in a finite
   * universe, every move costs between 1 and `maxStep`, the heuristic is
   * consistent and zero at the goal, and every heap key the search can form,
   * a recorded cost plus a heuristic compared as one `u32` sum by `Node::cmp`,
   * fits that sum.
   */
  ghost predicate WellPosed(pb: Problem, universe: set<Point>, maxStep: nat) {
    && pb.start in universe
    && (forall u, v :: u in universe && v in pb.succ(u) ==> v in universe)
    && (forall u, v :: v in pb.succ(u) ==> 1 <= pb.step(u, v) <= maxStep)
    && (forall u, v :: v in pb.succ(u) ==> pb.h(u) <= pb.step(u, v) + pb.h(v))
    && pb.h(pb.goal) == 0
    && (forall u :: u in universe ==> Mul(|universe|, maxStep) + pb.h(u) < U32_LIMIT)
  }

  /** The edge `s -> v` can no longer improve `v`. */
  ghost predicate Relaxed(pb: Problem, g: map<Point, nat>, s: Point, v: Point)
    requires s in g
  {
    v in g && g[v] <= g[s] + pb.step(s, v)
  }

  /** Fixed facts about the start, the goal and where recorded points live. */
  ghost predicate Basics(pb: Problem, universe: set<Point>, maxStep: nat,
                         g: map<Point, nat>, cameFrom: map<Point, Point>, settled: set<Point>)
  {
    && WellPosed(pb, universe, maxStep)
    && pb.start in g && g[pb.start] == 0 && pb.start !in cameFrom
    && g.Keys <= universe && settled <= g.Keys && pb.goal !in settled
  }

  /** Every recorded cost is at most (recorded points - 1) * maxStep, hence fits `u32`. */
  ghost predicate Bounded(maxStep: nat, g: map<Point, nat>) {
    && (forall v :: v in g ==> g[v] + maxStep <= Mul(|g.Keys|, maxStep))
    && (forall v :: v in g ==> g[v] < U32_LIMIT)
  }

  /**
   * Heap entries are never cheaper than the recorded cost, never below the
   * last settled key, and their key sum never overflows `u32`.
   */
  ghost predicate Entries(pb: Problem, g: map<Point, nat>, frontier: seq<Node>, lastKey: nat) {
    forall n :: n in frontier ==>
      n.point in g && g[n.point] <= n.cost && n.heuristic == pb.h(n.point) && lastKey <= Key(n) < U32_LIMIT
  }

  /** An unsettled recorded point still has its current entry in the heap. */
  ghost predicate Pending(pb: Problem, g: map<Point, nat>, frontier: seq<Node>, settled: set<Point>)
    requires forall v :: v in g ==> g[v] < U32_LIMIT && pb.h(v) < U32_LIMIT
  {
    forall v :: v in g && v !in settled ==> Node(v, g[v], pb.h(v)) in frontier
  }

  ghost predicate SettledBelow(pb: Problem, g: map<Point, nat>, settled: set<Point>, lastKey: nat)
    requires settled <= g.Keys
  {
    forall s :: s in settled ==> g[s] + pb.h(s) <= lastKey
  }

  /** `came_from` points at a settled predecessor whose move accounts for the recorded cost. */
  ghost predicate Parents(pb: Problem, g: map<Point, nat>, cameFrom: map<Point, Point>, settled: set<Point>) {
    && (forall v {:trigger cameFrom[v]} :: v in cameFrom ==>
          && v in g && cameFrom[v] in settled && cameFrom[v] in g
          && v in pb.succ(cameFrom[v])
          && g[v] == g[cameFrom[v]] + pb.step(cameFrom[v], v))
    && (forall v :: v in g && v != pb.start ==> v in cameFrom)
  }

  /**
   * Everything the main loop keeps except the relaxation of settled points.
   * A point is settled once it has been popped while unsettled; such a pop is
   * never stale, and a settled point's cost never changes again.
   */
  ghost predicate Core(pb: Problem, universe: set<Point>, maxStep: nat,
                       g: map<Point, nat>, cameFrom: map<Point, Point>, frontier: seq<Node>,
                       settled: set<Point>, lastKey: nat)
  {
    && Basics(pb, universe, maxStep, g, cameFrom, settled)
    && Bounded(maxStep, g)
    && Entries(pb, g, frontier, lastKey)
    && Pending(pb, g, frontier, settled)
    && SettledBelow(pb, g, settled, lastKey)
    && Parents(pb, g, cameFrom, settled)
  }

  /** Every move out of a settled point has been relaxed. */
  ghost predicate AllRelaxed(pb: Problem, g: map<Point, nat>, settled: set<Point>)
    requires settled <= g.Keys
  {
    forall s, v :: s in settled && v in pb.succ(s) ==> Relaxed(pb, g, s, v)
  }

  ghost predicate Inv(pb: Problem, universe: set<Point>, maxStep: nat,
                      g: map<Point, nat>, cameFrom: map<Point, Point>, frontier: seq<Node>,
                      settled: set<Point>, lastKey: nat)
  {
    && Core(pb, universe, maxStep, g, cameFrom, frontier, settled, lastKey)
    && AllRelaxed(pb, g, settled)
  }

  /** The entry `BinaryHeap::pop` returns: one of least g + h. */
  method ArgMinKey(frontier: seq<Node>) returns (i: nat)
    requires |frontier| > 0
    ensures i < |frontier|
    ensures forall m :: m in frontier ==> Key(frontier[i]) <= Key(m)
  {
    i := 0;
    var j := 1;
    while j < |frontier|
      invariant i < j <= |frontier|
      invariant forall k :: 0 <= k < j ==> Key(frontier[i]) <= Key(frontier[k])
    {
      if Key(frontier[j]) < Key(frontier[i]) {
        i := j;
      }
      j := j + 1;
    }
  }

  /** Popping the least entry (not the goal) and settling its point keeps the loop state. */
  lemma PopKeeps(pb: Problem, universe: set<Point>, maxStep: nat,
                 g: map<Point, nat>, cameFrom: map<Point, Point>, frontier: seq<Node>,
                 settled: set<Point>, lastKey: nat, i: nat,
                 rest: seq<Node>, settled': set<Point>, lastKey': nat)
    requires Inv(pb, universe, maxStep, g, cameFrom, frontier, settled, lastKey)
    requires i < |frontier| && forall m :: m in frontier ==> Key(frontier[i]) <= Key(m)
    requires frontier[i].point != pb.goal
    requires rest == frontier[..i] + frontier[i + 1..] && settled' == settled + {frontier[i].point}
    requires lastKey' == if frontier[i].point in settled then lastKey else Key(frontier[i])
    ensures Core(pb, universe, maxStep, g, cameFrom, rest, settled', lastKey')
    ensures var u := frontier[i].point;
            && u in g && u in settled' && g[u] + pb.h(u) <= lastKey'
            && (u !in settled ==> g[u] + pb.h(u) == lastKey')
            && (u in settled ==> forall w :: w in pb.succ(u) ==> Relaxed(pb, g, u, w))
            && (forall s, w :: s in settled' && s != u && w in pb.succ(s) ==> Relaxed(pb, g, s, w))
  {
    var cur := frontier[i];
    var u := cur.point;
    if u !in settled {
      assert Node(u, g[u], pb.h(u)) in frontier;
    }
    PopEntries(pb, g, frontier, lastKey, i, rest, lastKey');
    PopPending(pb, g, frontier, settled, i, rest, settled');
  }

  /** Dropping the least entry keeps every other entry above the new last key. */
  lemma PopEntries(pb: Problem, g: map<Point, nat>, frontier: seq<Node>, lastKey: nat, i: nat,
                   rest: seq<Node>, lastKey': nat)
    requires Entries(pb, g, frontier, lastKey)
    requires i < |frontier| && forall m :: m in frontier ==> Key(frontier[i]) <= Key(m)
    requires rest == frontier[..i] + frontier[i + 1..] && lastKey' <= Key(frontier[i])
    ensures Entries(pb, g, rest, lastKey')
  {
    RemoveSubset(frontier, i);
  }

  /** Dropping the entry of the point being settled keeps every other pending entry. */
  lemma PopPending(pb: Problem, g: map<Point, nat>, frontier: seq<Node>, settled: set<Point>, i: nat,
                   rest: seq<Node>, settled': set<Point>)
    requires forall v :: v in g ==> g[v] < U32_LIMIT && pb.h(v) < U32_LIMIT
    requires Pending(pb, g, frontier, settled)
    requires i < |frontier| && rest == frontier[..i] + frontier[i + 1..] && settled' == settled + {frontier[i].point}
    ensures Pending(pb, g, rest, settled')
  {
    forall v | v in g && v !in settled'
      ensures Node(v, g[v], pb.h(v)) in rest
    {
      RemoveKeepsOthers(frontier, i, Node(v, g[v], pb.h(v)));
    }
  }

  /** The facts a relaxation of `u -> v` starts from, inside the expansion of settled `u`. */
  ghost predicate Expanding(pb: Problem, universe: set<Point>, maxStep: nat,
                            g: map<Point, nat>, cameFrom: map<Point, Point>, frontier: seq<Node>,
                            settled: set<Point>, lastKey: nat, u: Point, v: Point, newlySettled: bool)
  {
    && Core(pb, universe, maxStep, g, cameFrom, frontier, settled, lastKey)
    && u in settled && v in pb.succ(u)
    && g[u] + pb.h(u) <= lastKey
    && (newlySettled ==> g[u] + pb.h(u) == lastKey)
    && (!newlySettled ==> Relaxed(pb, g, u, v))
  }

  /** Only an unsettled point can be improved, and only while its settling parent is new. */
  lemma ImproveTarget(pb: Problem, universe: set<Point>, maxStep: nat,
                      g: map<Point, nat>, cameFrom: map<Point, Point>, frontier: seq<Node>,
                      settled: set<Point>, lastKey: nat, u: Point, v: Point, newlySettled: bool)
    requires Expanding(pb, universe, maxStep, g, cameFrom, frontier, settled, lastKey, u, v, newlySettled)
    requires v !in g || g[u] + pb.step(u, v) < g[v]
    ensures newlySettled && v != u && v !in settled && v != pb.start && v in universe
    ensures lastKey <= g[u] + pb.step(u, v) + pb.h(v)
  {
    assert pb.h(u) <= pb.step(u, v) + pb.h(v);
  }

  /** The improved cost respects the running bound and fits `u32`. */
  lemma ImproveBounded(pb: Problem, universe: set<Point>, maxStep: nat,
                       g: map<Point, nat>, u: Point, v: Point)
    requires WellPosed(pb, universe, maxStep) && Bounded(maxStep, g)
    requires g.Keys <= universe && u in g && v in universe && v in pb.succ(u)
    requires v !in g || g[u] + pb.step(u, v) < g[v]
    ensures g[u] + pb.step(u, v) + pb.h(v) < U32_LIMIT
    ensures Bounded(maxStep, g[v := g[u] + pb.step(u, v)])
  {
    var c := g[u] + pb.step(u, v);
    var g' := g[v := c];
    var k := |g.Keys|;
    var now := Mul(k, maxStep);
    assert c + maxStep <= now + maxStep;
    if v !in g {
      assert g'.Keys == g.Keys + {v};
      assert |g'.Keys| == k + 1;
      assert Mul(k + 1, maxStep) == now + maxStep;
      SubsetCard(g'.Keys, universe);
      MulMonotone(k + 1, |universe|, maxStep);
    } else {
      assert g'.Keys == g.Keys;
      SubsetCard(g.Keys, universe);
      MulMonotone(k, |universe|, maxStep);
    }
  }

  /** An improving relaxation keeps the core invariant. */
  lemma ImproveKeeps(pb: Problem, universe: set<Point>, maxStep: nat,
                     g: map<Point, nat>, cameFrom: map<Point, Point>, frontier: seq<Node>,
                     settled: set<Point>, lastKey: nat, u: Point, v: Point, newlySettled: bool)
    requires Expanding(pb, universe, maxStep, g, cameFrom, frontier, settled, lastKey, u, v, newlySettled)
    requires v !in g || g[u] + pb.step(u, v) < g[v]
    ensures g[u] + pb.step(u, v) < U32_LIMIT
    ensures v != u && v !in settled
    ensures var c := g[u] + pb.step(u, v);
            Core(pb, universe, maxStep, g[v := c], cameFrom[v := u],
                 frontier + [Node(v, c, pb.h(v))], settled, lastKey)
  {
    ImproveTarget(pb, universe, maxStep, g, cameFrom, frontier, settled, lastKey, u, v, newlySettled);
    ImproveBounded(pb, universe, maxStep, g, u, v);
    var c := g[u] + pb.step(u, v);
    var g' := g[v := c];
    var cameFrom' := cameFrom[v := u];
    var frontier' := frontier + [Node(v, c, pb.h(v))];
    assert Basics(pb, universe, maxStep, g', cameFrom', settled);
    ImproveEntries(pb, g, frontier, lastKey, v, c);
    ImprovePending(pb, g, frontier, settled, v, c);
    assert SettledBelow(pb, g', settled, lastKey);
    ImproveParentsKept(pb, g, cameFrom, settled, u, v, c);
  }

  /** The improved entry joins the heap without undercutting a recorded cost or the last key. */
  lemma ImproveEntries(pb: Problem, g: map<Point, nat>, frontier: seq<Node>, lastKey: nat, v: Point, c: nat)
    requires Entries(pb, g, frontier, lastKey)
    requires c + pb.h(v) < U32_LIMIT && (v !in g || c < g[v])
    requires lastKey <= c + pb.h(v)
    ensures Entries(pb, g[v := c], frontier + [Node(v, c, pb.h(v))], lastKey)
  {
  }

  /** The improved point is pending through its new entry; every other pending entry stays. */
  lemma ImprovePending(pb: Problem, g: map<Point, nat>, frontier: seq<Node>, settled: set<Point>, v: Point, c: nat)
    requires forall w :: w in g ==> g[w] < U32_LIMIT && pb.h(w) < U32_LIMIT
    requires c < U32_LIMIT && pb.h(v) < U32_LIMIT
    requires Pending(pb, g, frontier, settled)
    ensures Pending(pb, g[v := c], frontier + [Node(v, c, pb.h(v))], settled)
  {
  }

  /** The improved point's parent is the settled point whose move accounts for its new cost. */
  lemma ImproveParentsKept(pb: Problem, g: map<Point, nat>, cameFrom: map<Point, Point>, settled: set<Point>,
                           u: Point, v: Point, c: nat)
    requires Parents(pb, g, cameFrom, settled)
    requires u in settled && u in g && v !in settled && v in pb.succ(u) && c == g[u] + pb.step(u, v)
    ensures Parents(pb, g[v := c], cameFrom[v := u], settled)
  {
  }

  /** An improvement never undoes the relaxation of other moves. */
  lemma ImproveKeepsRelaxed(pb: Problem, g: map<Point, nat>, settled: set<Point>,
                            u: Point, v: Point, c: nat)
    requires settled <= g.Keys && u in settled && v !in settled
    requires v !in g || c < g[v]
    ensures forall s, w :: s in settled && w in pb.succ(s) && Relaxed(pb, g, s, w) ==> Relaxed(pb, g[v := c], s, w)
  {
  }

  /** Walks from the start through settled points only reach points of known cost. */
  lemma {:induction false} SettledWalk(pb: Problem, g: map<Point, nat>, settled: set<Point>, p: seq<Point>)
    requires settled <= g.Keys && pb.start in g && g[pb.start] == 0
    requires forall s, v :: s in settled && v in pb.succ(s) ==> Relaxed(pb, g, s, v)
    requires IsWalk(pb, p) && p[0] == pb.start
    requires forall j :: 0 <= j < |p| - 1 ==> p[j] in settled
    ensures p[|p| - 1] in g && g[p[|p| - 1]] <= WalkCost(pb, p)
    decreases |p|
  {
    if |p| > 1 {
      var q := p[..|p| - 1];
      assert IsWalk(pb, q) by {
        forall j | 0 <= j < |q| - 1 ensures q[j + 1] in pb.succ(q[j]) {
          assert q[j] == p[j] && q[j + 1] == p[j + 1];
        }
      }
      SettledWalk(pb, g, settled, q);
      WalkCostSnoc(pb, q, p[|p| - 1]);
      assert p == q + [p[|p| - 1]];
      assert p[|p| - 1] in pb.succ(q[|q| - 1]);
    }
  }

  /** Extending a walk by one move adds that move's cost. */
  lemma {:induction false} WalkCostSnoc(pb: Problem, p: seq<Point>, x: Point)
    requires |p| > 0
    ensures WalkCost(pb, p + [x]) == WalkCost(pb, p) + pb.step(p[|p| - 1], x)
    decreases |p|
  {
    if |p| > 1 {
      assert (p + [x])[1..] == p[1..] + [x];
      WalkCostSnoc(pb, p[1..], x);
    }
  }

  /** Splitting a walk at an interior point splits its cost. */
  lemma {:induction false} WalkCostSplit(pb: Problem, p: seq<Point>, i: nat)
    requires i < |p|
    ensures WalkCost(pb, p) == WalkCost(pb, p[..i + 1]) + WalkCost(pb, p[i..])
    decreases i
  {
    if i > 0 {
      assert p[1..][..i] == p[1..i + 1];
      assert p[1..][i - 1..] == p[i..];
      WalkCostSplit(pb, p[1..], i - 1);
      assert p[..i + 1][1..] == p[1..i + 1];
    }
  }

  /** A consistent heuristic that is zero at the goal never overestimates a walk to it. */
  lemma {:induction false} HeuristicAdmissible(pb: Problem, universe: set<Point>, maxStep: nat, p: seq<Point>)
    requires WellPosed(pb, universe, maxStep)
    requires IsWalk(pb, p) && p[|p| - 1] == pb.goal
    ensures pb.h(p[0]) <= WalkCost(pb, p)
    decreases |p|
  {
    if |p| > 1 {
      var q := p[1..];
      assert IsWalk(pb, q) by {
        forall j | 0 <= j < |q| - 1 ensures q[j + 1] in pb.succ(q[j]) {
          assert q[j] == p[j + 1] && q[j + 1] == p[j + 2];
        }
      }
      HeuristicAdmissible(pb, universe, maxStep, q);
      assert p[1] in pb.succ(p[0]);
    }
  }

  /**
   * The A* bound: when the least frontier key is `k`, every walk from the
   * start to the goal costs at least `k`.
   */
  lemma PopIsLowerBound(pb: Problem, universe: set<Point>, maxStep: nat,
                        g: map<Point, nat>, cameFrom: map<Point, Point>, frontier: seq<Node>,
                        settled: set<Point>, lastKey: nat, k: nat, p: seq<Point>)
    requires Inv(pb, universe, maxStep, g, cameFrom, frontier, settled, lastKey)
    requires forall m :: m in frontier ==> k <= Key(m)
    requires WalkBetween(pb, p, pb.start, pb.goal)
    ensures k <= WalkCost(pb, p)
  {
    var i := FirstOutside(p, settled);
    var w := p[i];
    var pre := p[..i + 1];
    var post := p[i..];
    assert IsWalk(pb, pre) by {
      forall j | 0 <= j < |pre| - 1 ensures pre[j + 1] in pb.succ(pre[j]) {
        assert pre[j] == p[j] && pre[j + 1] == p[j + 1];
      }
    }
    assert IsWalk(pb, post) by {
      forall j | 0 <= j < |post| - 1 ensures post[j + 1] in pb.succ(post[j]) {
        assert post[j] == p[i + j] && post[j + 1] == p[i + j + 1];
      }
    }
    SettledWalk(pb, g, settled, pre);
    HeuristicAdmissible(pb, universe, maxStep, post);
    WalkCostSplit(pb, p, i);
    assert Node(w, g[w], pb.h(w)) in frontier;
  }

  /** Once the frontier is empty, no walk from the start reaches the goal. */
  lemma {:induction false} ExhaustedUnreachable(pb: Problem, universe: set<Point>, maxStep: nat,
                                                g: map<Point, nat>, cameFrom: map<Point, Point>,
                                                settled: set<Point>, lastKey: nat, p: seq<Point>)
    requires Inv(pb, universe, maxStep, g, cameFrom, [], settled, lastKey)
    requires IsWalk(pb, p) && p[0] == pb.start
    ensures p[|p| - 1] in settled && p[|p| - 1] != pb.goal
    decreases |p|
  {
    if |p| > 1 {
      var q := p[..|p| - 1];
      assert IsWalk(pb, q) by {
        forall j | 0 <= j < |q| - 1 ensures q[j + 1] in pb.succ(q[j]) {
          assert q[j] == p[j] && q[j + 1] == p[j + 1];
        }
      }
      ExhaustedUnreachable(pb, universe, maxStep, g, cameFrom, settled, lastKey, q);
      assert p[|p| - 1] in pb.succ(q[|q| - 1]);
    } else {
      assert pb.start in g;
    }
  }

  /** Every move costs at least one, so a walk costs at least its number of moves. */
  lemma {:induction false} WalkCostAtLeastMoves(pb: Problem, universe: set<Point>, maxStep: nat, p: seq<Point>)
    requires WellPosed(pb, universe, maxStep) && IsWalk(pb, p)
    ensures |p| - 1 <= WalkCost(pb, p)
    decreases |p|
  {
    if |p| > 1 {
      var q := p[1..];
      assert IsWalk(pb, q) by {
        forall j | 0 <= j < |q| - 1 ensures q[j + 1] in pb.succ(q[j]) {
          assert q[j] == p[j + 1] && q[j + 1] == p[j + 2];
        }
      }
      WalkCostAtLeastMoves(pb, universe, maxStep, q);
      assert p[1] in pb.succ(p[0]);
    }
  }

  /** The state of the expansion of settled `u` after its first `k` successors. */
  ghost predicate Expansion(pb: Problem, universe: set<Point>, maxStep: nat,
                            g: map<Point, nat>, cameFrom: map<Point, Point>, frontier: seq<Node>,
                            settled: set<Point>, lastKey: nat, u: Point, gu: nat, newlySettled: bool,
                            next: seq<Point>, k: nat)
  {
    && k <= |next| && next == pb.succ(u)
    && Core(pb, universe, maxStep, g, cameFrom, frontier, settled, lastKey)
    && settled <= g.Keys && u in settled && g[u] == gu
    && gu + pb.h(u) <= lastKey
    && (newlySettled ==> gu + pb.h(u) == lastKey)
    && (!newlySettled ==> forall w :: w in next ==> Relaxed(pb, g, u, w))
    && (forall j :: 0 <= j < k ==> Relaxed(pb, g, u, next[j]))
    && (forall s, w :: s in settled && s != u && w in pb.succ(s) ==> Relaxed(pb, g, s, w))
  }

  /** Relaxing `next[k]` when it improves: the expansion state moves on to `k + 1`. */
  lemma ImproveStep(pb: Problem, universe: set<Point>, maxStep: nat,
                    g: map<Point, nat>, cameFrom: map<Point, Point>, frontier: seq<Node>,
                    settled: set<Point>, lastKey: nat, u: Point, gu: nat, newlySettled: bool,
                    next: seq<Point>, k: nat, v: Point, c: nat)
    requires Expansion(pb, universe, maxStep, g, cameFrom, frontier, settled, lastKey, u, gu, newlySettled, next, k)
    requires k < |next| && v == next[k] && c == gu + pb.step(u, v) && (v !in g || c < g[v])
    ensures newlySettled && c < U32_LIMIT
    ensures Expansion(pb, universe, maxStep, g[v := c], cameFrom[v := u], frontier + [Node(v, c, pb.h(v))],
                      settled, lastKey, u, gu, newlySettled, next, k + 1)
  {
    assert v in pb.succ(u);
    assert Expanding(pb, universe, maxStep, g, cameFrom, frontier, settled, lastKey, u, v, newlySettled);
    ImproveTarget(pb, universe, maxStep, g, cameFrom, frontier, settled, lastKey, u, v, newlySettled);
    ImproveKeeps(pb, universe, maxStep, g, cameFrom, frontier, settled, lastKey, u, v, newlySettled);
    RelaxedAfterImprove(pb, g, settled, u, v, c, next, k);
    ExpansionIntro(pb, universe, maxStep, g[v := c], cameFrom[v := u], frontier + [Node(v, c, pb.h(v))],
                   settled, lastKey, u, gu, newlySettled, next, k + 1);
  }

  /** After an improvement of `v`, the moves relaxed so far stay relaxed and so does `u -> v`. */
  lemma RelaxedAfterImprove(pb: Problem, g: map<Point, nat>, settled: set<Point>,
                            u: Point, v: Point, c: nat, next: seq<Point>, k: nat)
    requires settled <= g.Keys && u in settled && v !in settled && u != v
    requires k < |next| && next[k] == v && next == pb.succ(u) && c == g[u] + pb.step(u, v)
    requires v !in g || c < g[v]
    requires forall j :: 0 <= j < k ==> Relaxed(pb, g, u, next[j])
    requires forall s, w :: s in settled && s != u && w in pb.succ(s) ==> Relaxed(pb, g, s, w)
    ensures g[v := c][u] == g[u]
    ensures forall j :: 0 <= j < k + 1 ==> Relaxed(pb, g[v := c], u, next[j])
    ensures forall s, w :: s in settled && s != u && w in pb.succ(s) ==> Relaxed(pb, g[v := c], s, w)
  {
    ImproveKeepsRelaxed(pb, g, settled, u, v, c);
    forall j | 0 <= j < k + 1 ensures Relaxed(pb, g[v := c], u, next[j]) {
      if j < k {
        assert next[j] in pb.succ(u);
      }
    }
  }

  /** Assembles the expansion state from its parts. */
  lemma ExpansionIntro(pb: Problem, universe: set<Point>, maxStep: nat,
                       g: map<Point, nat>, cameFrom: map<Point, Point>, frontier: seq<Node>,
                       settled: set<Point>, lastKey: nat, u: Point, gu: nat, newlySettled: bool,
                       next: seq<Point>, k: nat)
    requires k <= |next| && next == pb.succ(u) && newlySettled
    requires Core(pb, universe, maxStep, g, cameFrom, frontier, settled, lastKey)
    requires settled <= g.Keys && u in settled && g[u] == gu && gu + pb.h(u) == lastKey
    requires forall j :: 0 <= j < k ==> Relaxed(pb, g, u, next[j])
    requires forall s, w :: s in settled && s != u && w in pb.succ(s) ==> Relaxed(pb, g, s, w)
    ensures Expansion(pb, universe, maxStep, g, cameFrom, frontier, settled, lastKey, u, gu, newlySettled, next, k)
  {
  }

  /** Skipping `next[k]` when it does not improve: it is already relaxed. */
  lemma SkipStep(pb: Problem, universe: set<Point>, maxStep: nat,
                 g: map<Point, nat>, cameFrom: map<Point, Point>, frontier: seq<Node>,
                 settled: set<Point>, lastKey: nat, u: Point, gu: nat, newlySettled: bool,
                 next: seq<Point>, k: nat)
    requires Expansion(pb, universe, maxStep, g, cameFrom, frontier, settled, lastKey, u, gu, newlySettled, next, k)
    requires k < |next| && next[k] in g && g[next[k]] <= gu + pb.step(u, next[k])
    ensures Expansion(pb, universe, maxStep, g, cameFrom, frontier, settled, lastKey, u, gu, newlySettled, next, k + 1)
  {
  }

  /** Once every successor of `u` is relaxed, the full search invariant holds again. */
  lemma ExpansionDone(pb: Problem, universe: set<Point>, maxStep: nat,
                      g: map<Point, nat>, cameFrom: map<Point, Point>, frontier: seq<Node>,
                      settled: set<Point>, lastKey: nat, u: Point, gu: nat, newlySettled: bool,
                      next: seq<Point>)
    requires Expansion(pb, universe, maxStep, g, cameFrom, frontier, settled, lastKey, u, gu, newlySettled, next, |next|)
    ensures Inv(pb, universe, maxStep, g, cameFrom, frontier, settled, lastKey)
  {
    forall s, w | s in settled && w in pb.succ(s) ensures Relaxed(pb, g, s, w) {
      if s == u {
        var j :| 0 <= j < |next| && next[j] == w;
      }
    }
  }

  /**
   * The `for next_point in ...` loop: relax every successor of the popped
   * point `u` in order, pushing an entry for each improved one.
   */
  method Expand(pb: Problem, ghost universe: set<Point>, ghost maxStep: nat,
                g0: map<Point, nat>, cameFrom0: map<Point, Point>, frontier0: seq<Node>,
                ghost settled: set<Point>, ghost lastKey: nat, u: Point, ghost newlySettled: bool)
    returns (g: map<Point, nat>, cameFrom: map<Point, Point>, frontier: seq<Node>)
    requires Core(pb, universe, maxStep, g0, cameFrom0, frontier0, settled, lastKey)
    requires u in settled && g0[u] + pb.h(u) <= lastKey
    requires newlySettled ==> g0[u] + pb.h(u) == lastKey
    requires !newlySettled ==> forall w :: w in pb.succ(u) ==> Relaxed(pb, g0, u, w)
    requires forall s, w :: s in settled && s != u && w in pb.succ(s) ==> Relaxed(pb, g0, s, w)
    ensures Inv(pb, universe, maxStep, g, cameFrom, frontier, settled, lastKey)
    ensures !newlySettled ==> g == g0 && cameFrom == cameFrom0 && frontier == frontier0
  {
    g, cameFrom, frontier := g0, cameFrom0, frontier0;
    var gu := g[u];
    var next := pb.succ(u);
    var k := 0;
    while k < |next|
      invariant Expansion(pb, universe, maxStep, g, cameFrom, frontier, settled, lastKey, u, gu, newlySettled, next, k)
      invariant !newlySettled ==> g == g0 && cameFrom == cameFrom0 && frontier == frontier0
      decreases |next| - k
    {
      var v := next[k];
      var newCost := gu + pb.step(u, v);
      if v !in g || newCost < g[v] {
        ImproveStep(pb, universe, maxStep, g, cameFrom, frontier, settled, lastKey, u, gu, newlySettled, next, k, v, newCost);
        g := g[v := newCost];
        frontier := frontier + [Node(v, newCost, pb.h(v))];
        cameFrom := cameFrom[v := u];
      } else {
        SkipStep(pb, universe, maxStep, g, cameFrom, frontier, settled, lastKey, u, gu, newlySettled, next, k);
      }
      k := k + 1;
    }
    ExpansionDone(pb, universe, maxStep, g, cameFrom, frontier, settled, lastKey, u, gu, newlySettled, next);
  }


  /** Some walk leads from the start to the goal. */
  ghost predicate Reachable(pb: Problem) {
    exists p :: WalkBetween(pb, p, pb.start, pb.goal)
  }

  /**
   * One turn of the `while let Some(current) = frontier.pop()` loop when the
   * popped point is not the goal: settle it if it was unsettled, then relax
   * its successors. Either one more point is settled or the heap shrank.
   */
  method Advance(pb: Problem, ghost universe: set<Point>, ghost maxStep: nat,
                 g0: map<Point, nat>, cameFrom0: map<Point, Point>, frontier0: seq<Node>,
                 ghost settled0: set<Point>, ghost lastKey0: nat, i: nat)
    returns (g: map<Point, nat>, cameFrom: map<Point, Point>, frontier: seq<Node>,
             ghost settled: set<Point>, ghost lastKey: nat)
    requires Inv(pb, universe, maxStep, g0, cameFrom0, frontier0, settled0, lastKey0)
    requires i < |frontier0| && forall m :: m in frontier0 ==> Key(frontier0[i]) <= Key(m)
    requires frontier0[i].point != pb.goal
    ensures Inv(pb, universe, maxStep, g, cameFrom, frontier, settled, lastKey)
    ensures |universe - settled| < |universe - settled0| ||
            (settled == settled0 && |frontier| < |frontier0|)
  {
    var current := frontier0[i];
    var rest := frontier0[..i] + frontier0[i + 1..];
    var u := current.point;
    ghost var newlySettled := u !in settled0;
    settled := settled0 + {u};
    lastKey := if newlySettled then Key(current) else lastKey0;
    PopKeeps(pb, universe, maxStep, g0, cameFrom0, frontier0, settled0, lastKey0, i, rest, settled, lastKey);
    g, cameFrom, frontier := Expand(pb, universe, maxStep, g0, cameFrom0, rest, settled, lastKey, u, newlySettled);
    if newlySettled {
      SettlingShrinks(universe, g0, settled0, u);
    }
  }

  /** Settling a recorded, unsettled point leaves fewer points of the universe unsettled. */
  lemma SettlingShrinks(universe: set<Point>, g: map<Point, nat>, settled: set<Point>, u: Point)
    requires g.Keys <= universe && u in g && u !in settled
    ensures |universe - (settled + {u})| < |universe - settled|
  {
    assert universe - (settled + {u}) == (universe - settled) - {u};
  }

  /**
   * `a_star`, generic: pops least-g+h entries, returns the path rebuilt from
   * `came_from` as soon as the goal is popped, and `None` once the frontier
   * is exhausted. The path runs from start to goal along successor moves and
   * no walk between them is cheaper; `None` means no walk reaches the goal.
   */
  method BestFirstSearch(pb: Problem, ghost universe: set<Point>, ghost maxStep: nat)
    returns (r: Option<seq<Point>>)
    requires WellPosed(pb, universe, maxStep)
    ensures r.Some? ==> WalkBetween(pb, r.value, pb.start, pb.goal)
    ensures r.Some? ==> forall p :: WalkBetween(pb, p, pb.start, pb.goal) ==> WalkCost(pb, r.value) <= WalkCost(pb, p)
    ensures r.None? <==> !Reachable(pb)
    ensures pb.start == pb.goal ==> r == Some([pb.start])
  {
    var g: map<Point, nat> := map[pb.start := 0];
    var cameFrom: map<Point, Point> := map[];
    var frontier := [Node(pb.start, 0, pb.h(pb.start))];
    ghost var settled: set<Point> := {};
    ghost var lastKey: nat := 0;
    while |frontier| > 0
      invariant Inv(pb, universe, maxStep, g, cameFrom, frontier, settled, lastKey)
      decreases |universe - settled|, |frontier|
    {
      var i := ArgMinKey(frontier);
      if frontier[i].point == pb.goal {
        r := Reconstruct(pb, universe, maxStep, g, cameFrom, frontier, settled, lastKey, i);
        return;
      }
      g, cameFrom, frontier, settled, lastKey := Advance(pb, universe, maxStep, g, cameFrom, frontier, settled, lastKey, i);
    }
    forall p | WalkBetween(pb, p, pb.start, pb.goal) ensures false {
      ExhaustedUnreachable(pb, universe, maxStep, g, cameFrom, settled, lastKey, p);
    }
    return None;
  }

  /** The goal has just been popped: rebuild the path from `came_from` and show it is optimal. */
  method Reconstruct(pb: Problem, ghost universe: set<Point>, ghost maxStep: nat,
                     g: map<Point, nat>, cameFrom: map<Point, Point>, frontier: seq<Node>,
                     ghost settled: set<Point>, ghost lastKey: nat, i: nat)
    returns (r: Option<seq<Point>>)
    requires Inv(pb, universe, maxStep, g, cameFrom, frontier, settled, lastKey)
    requires i < |frontier| && forall m :: m in frontier ==> Key(frontier[i]) <= Key(m)
    requires frontier[i].point == pb.goal
    ensures r.Some? && WalkBetween(pb, r.value, pb.start, pb.goal) && Reachable(pb)
    ensures forall p :: WalkBetween(pb, p, pb.start, pb.goal) ==> WalkCost(pb, r.value) <= WalkCost(pb, p)
    ensures pb.start == pb.goal ==> r == Some([pb.start])
  {
    var goal := pb.goal;
    assert goal in g;
    var path := [goal];
    var curr := goal;
    while curr != pb.start
      invariant curr in g && |path| > 0 && path[0] == curr && path[|path| - 1] == goal
      invariant IsWalk(pb, path)
      invariant WalkCost(pb, path) + g[curr] == g[goal]
      decreases g[curr]
    {
      var prev := cameFrom[curr];
      ghost var before := path;
      path := [prev] + path;
      assert path[1..] == before;
      assert IsWalk(pb, path) by {
        forall j | 0 <= j < |path| - 1 ensures path[j + 1] in pb.succ(path[j]) {
          if j > 0 {
            assert path[j] == before[j - 1] && path[j + 1] == before[j];
          }
        }
      }
      curr := prev;
    }
    r := Some(path);
    assert WalkBetween(pb, path, pb.start, pb.goal);
    assert frontier[i] in frontier;
    assert WalkCost(pb, path) == g[goal] <= Key(frontier[i]);
    forall p | WalkBetween(pb, p, pb.start, pb.goal) ensures WalkCost(pb, path) <= WalkCost(pb, p) {
      PopIsLowerBound(pb, universe, maxStep, g, cameFrom, frontier, settled, lastKey, Key(frontier[i]), p);
    }
    if pb.start == pb.goal {
      assert WalkBetween(pb, [pb.start], pb.start, pb.goal);
      assert WalkCost(pb, [pb.start]) == 0;
      WalkCostAtLeastMoves(pb, universe, maxStep, path);
      assert path == [pb.start];
    }
  }
}
