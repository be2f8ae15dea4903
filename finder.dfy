/** Map.finder: the layer-by-layer breadth-first maze search. From `start` it
    expands whole layers of cells until a layer touches `end`, recording in a
    `steps` grid the cell each visited cell was first reached from; then it either
    walks those back-pointers from `end` to `start` ('path' mode) or lists the
    open, unvisited neighbours of `end` ('next' mode). */
module Finder {
  import opened Outcomes
  import opened Maps

  /** A cell the search records, with the flag the source calls `change`: set
      when the cell was reached through a wraparound. */
  datatype Node = Node(pos: Pos, change: bool)

  /** options.type: 'path', 'next', or anything else. */
  datatype Mode = PathMode | NextMode | OtherMode

  /** The neighbours in the order the search expands them: down, right, up, left. */
  function RenderOrder(c: Pos): seq<Pos>
  {
    [Pos(c.x, c.y + 1), Pos(c.x + 1, c.y), Pos(c.x, c.y - 1), Pos(c.x - 1, c.y)]
  }

  /** The neighbours in the order 'next' mode lists them: right, down, left, up. */
  function NextOrder(c: Pos): seq<Pos>
  {
    [Pos(c.x + 1, c.y), Pos(c.x, c.y + 1), Pos(c.x - 1, c.y), Pos(c.x, c.y - 1)]
  }

  /** p is a cell of the grid or one step outside it. */
  predicate Near(m: Cells, p: Pos)
    requires |m| > 0
  {
    -1 <= p.x <= |m[0]| && -1 <= p.y <= |m|
  }

  /** The search's test for stepping onto `to`: a cell whose value is below 1 is
      entered; a value of -1 (outside the grid, or a stored -1) wraps the
      coordinates around both axes and flags the step. The wrapped cell's own
      value is not looked at. */
  function Enter(m: Cells, to: Pos): (r: Option<Node>)
    requires WellFormed(m)
    ensures r.Some? <==> Value(m, to.x, to.y) < 1
    ensures r.Some? ==> (r.value.change <==> Value(m, to.x, to.y) == -1)
    ensures r.Some? && !r.value.change ==> r.value.pos == to && Inside(m, to)
    ensures r.Some? && Near(m, to) ==> Inside(m, r.value.pos)
    ensures r.Some? && r.value.change && Near(m, to) ==>
      r.value.pos == Pos((to.x + |m[0]|) % |m[0]|, (to.y + |m|) % |m|)
  {
    var v := Value(m, to.x, to.y);
    if v < 1 then
      if v == -1 then Some(Node(Pos(JsRem(to.x + |m[0]|, |m[0]|), JsRem(to.y + |m|, |m|)), true))
      else Some(Node(to, false))
    else None
  }

  /** Stepping onto neighbour d lands on cell t. */
  ghost predicate Hit(m: Cells, d: Pos, t: Pos)
    requires WellFormed(m)
  {
    Enter(m, d).Some? && Enter(m, d).value.pos == t
  }

  /** One search step leads from c to t. */
  ghost predicate Succ(m: Cells, c: Pos, t: Pos)
    requires WellFormed(m)
  {
    exists d :: 0 <= d < 4 && Hit(m, RenderOrder(c)[d], t)
  }

  /** A walk of exactly j steps leads from s to t. */
  ghost predicate Reached(m: Cells, s: Pos, j: nat, t: Pos)
    requires WellFormed(m)
  {
    if j == 0 then t == s else exists c :: Reached(m, s, j - 1, c) && Succ(m, c, t)
  }

  /** Some walk of at least one step leads from s to e. */
  ghost predicate Reachable(m: Cells, s: Pos, e: Pos)
    requires WellFormed(m)
  {
    exists j: nat :: j >= 1 && Reached(m, s, j, e)
  }

  /** d is the least number of steps (at least one) that leads from s to e. */
  ghost predicate Distance(m: Cells, s: Pos, e: Pos, d: nat)
    requires WellFormed(m)
  {
    d >= 1 && Reached(m, s, d, e) && forall j :: 1 <= j < d ==> !Reached(m, s, j, e)
  }

  /** The grid cells some walk of 1 to d steps from s leads to. */
  ghost function Horizon(m: Cells, s: Pos, d: nat): set<Pos>
    requires WellFormed(m)
  {
    set c | c in AllCells(m) && exists j :: 1 <= j <= d && Reached(m, s, j, c)
  }

  /** A walk from s: each node is one search step from the one before it. */
  ghost predicate Walk(m: Cells, s: Pos, path: seq<Node>)
    requires WellFormed(m)
  {
    && |path| > 0
    && Succ(m, s, path[0].pos)
    && forall i :: 0 <= i < |path| - 1 ==> Succ(m, path[i].pos, path[i + 1].pos)
  }

  /** Node a is the back-pointer recorded for the cell of node b. */
  ghost predicate BackOf(B: map<Pos, Node>, a: Node, b: Node)
  {
    b.pos in B && a == B[b.pos]
  }

  /** Every node before the last is the node one step from the cell before it
      produced (its `change` flag included). */
  ghost predicate Stepped(m: Cells, start: Pos, path: seq<Node>)
    requires WellFormed(m)
  {
    forall i :: 0 <= i < |path| - 1 ==> NodeStep(m, if i == 0 then start else path[i - 1].pos, path[i])
  }

  /** What 'path' mode promises: a walk of grid cells from start that ends with
      the end node, never returns to start, is as short as any walk, and holds
      the nodes the steps produced. */
  ghost predicate ShortestPath(m: Cells, start: Pos, end: Pos, path: seq<Node>)
    requires WellFormed(m)
  {
    && Walk(m, start, path)
    && Stepped(m, start, path)
    && path[|path| - 1] == Node(end, false)
    && (forall i :: 0 <= i < |path| ==> Inside(m, path[i].pos) && path[i].pos != start)
    && Distance(m, start, end, |path|)
  }

  /** The nodes 'next' mode can list: the entered neighbours in the order right,
      down, left, up. */
  function Candidates(m: Cells, ps: seq<Pos>): (r: seq<Node>)
    requires WellFormed(m)
    ensures |r| <= |ps|
    ensures forall n :: n in r <==> exists p :: p in ps && Enter(m, p) == Some(n)
  {
    if ps == [] then []
    else
      var rest := Candidates(m, ps[1..]);
      match Enter(m, ps[0])
      case Some(n) => [n] + rest
      case None => rest
  }

  // ---------------------------------------------------------------------------
  // Facts about the search graph

  lemma SuccInside(m: Cells, c: Pos, t: Pos)
    requires WellFormed(m) && Inside(m, c) && Succ(m, c, t)
    ensures Inside(m, t)
  {
    var d :| 0 <= d < 4 && Hit(m, RenderOrder(c)[d], t);
    assert Near(m, RenderOrder(c)[d]);
  }

  lemma ReachStep(m: Cells, s: Pos, j: nat, c: Pos, t: Pos)
    requires WellFormed(m) && Reached(m, s, j, c) && Succ(m, c, t)
    ensures Reached(m, s, j + 1, t)
  {
  }

  /** The last node of a walk of n nodes is reached in exactly n steps. */
  lemma {:induction false} WalkReaches(m: Cells, s: Pos, path: seq<Node>)
    requires WellFormed(m) && Walk(m, s, path)
    ensures Reached(m, s, |path|, path[|path| - 1].pos)
  {
    if |path| == 1 {
      ReachStep(m, s, 0, s, path[0].pos);
    } else {
      var n := |path|;
      assert Walk(m, s, path[..n - 1]);
      WalkReaches(m, s, path[..n - 1]);
      ReachStep(m, s, n - 1, path[n - 2].pos, path[n - 1].pos);
    }
  }

  // ---------------------------------------------------------------------------
  // The search state: `steps` mirrors the ghost back-pointer map B; V gives the
  // layer in which each visited cell was first reached (start has layer 0).

  /** The cells of a list of nodes. */
  ghost function PosSet(L: seq<Node>): set<Pos>
  {
    set n | n in L :: n.pos
  }

  ghost predicate Mirrors(steps: array2<Option<Node>>, B: map<Pos, Node>)
    reads steps
  {
    forall y, x {:trigger steps[y, x]} :: 0 <= y < steps.Length0 && 0 <= x < steps.Length1 ==>
      steps[y, x] == (if Pos(x, y) in B then Some(B[Pos(x, y)]) else None)
  }

  ghost predicate Extends(V: map<Pos, nat>, V': map<Pos, nat>)
  {
    forall p :: p in V ==> p in V' && V'[p] == V[p]
  }

  /** The back-pointer forest: every visited cell lies in the grid and, except
      start, points back to a cell of the previous layer from which one step
      leads to it. */
  ghost predicate Tree(m: Cells, start: Pos, end: Pos, B: map<Pos, Node>, V: map<Pos, nat>)
    requires WellFormed(m)
  {
    && start in V && V[start] == 0
    && (forall p :: p in V ==> Inside(m, p) && (V[p] == 0 ==> p == start))
    && V.Keys - {start} <= B.Keys
    && (forall p :: p in B ==> Inside(m, p) && (p != end ==> p in V) && B[p].pos in V)
    && (forall p :: p in B && p != start && p != end ==> V[B[p].pos] + 1 == V[p])
    && (end != start ==> end !in V)
  }

  /** Each back-pointer names a cell from which one step leads to the marked cell. */
  ghost predicate Linked(m: Cells, B: map<Pos, Node>)
    requires WellFormed(m)
  {
    forall p :: p in B ==> Succ(m, B[p].pos, p)
  }

  lemma LinkedAdd(m: Cells, B: map<Pos, Node>, t: Pos, from: Node)
    requires WellFormed(m) && Linked(m, B) && Succ(m, from.pos, t)
    ensures Linked(m, B[t := from])
  {
  }

  /** Cell q has been expanded: each of its successors is marked, and is `end`
      only if the search has found it. */
  ghost predicate Settled(m: Cells, end: Pos, B: map<Pos, Node>, V: map<Pos, nat>, found: bool, q: Pos)
    requires WellFormed(m) && q in V
  {
    forall s :: Succ(m, q, s) ==>
      s in B && (s == end ==> found) && (s != end ==> s in V && V[s] <= V[q] + 1)
  }

  /** Every cell of a layer before k is expanded, and none leads to `end`. */
  ghost predicate LowSettled(m: Cells, end: Pos, B: map<Pos, Node>, V: map<Pos, nat>, k: nat)
    requires WellFormed(m)
  {
    forall p :: p in V && V[p] < k ==> Settled(m, end, B, V, false, p)
  }

  /** Every cell of layers 0 to k is expanded. */
  ghost predicate LayersDone(m: Cells, end: Pos, B: map<Pos, Node>, V: map<Pos, nat>, k: nat)
    requires WellFormed(m)
  {
    forall p :: p in V && V[p] <= k ==> Settled(m, end, B, V, true, p)
  }

  /** The search found `end` from layer k: `end` points back into layer k,
      every layer up to k is expanded, the layers before k never met `end`,
      and every back-pointer leads into a layer up to k. */
  ghost predicate FoundAt(m: Cells, end: Pos, B: map<Pos, Node>, V: map<Pos, nat>, k: nat)
    requires WellFormed(m)
  {
    && end in B && B[end].pos in V && V[B[end].pos] == k
    && LowSettled(m, end, B, V, k) && LayersDone(m, end, B, V, k)
    && (forall p :: p in B && B[p].pos in V ==> V[B[p].pos] <= k)
  }

  /** The first i cells of F are expanded. */
  ghost predicate PrefixSettled(m: Cells, end: Pos, B: map<Pos, Node>, V: map<Pos, nat>, found: bool, F: seq<Node>, i: nat)
    requires WellFormed(m) && i <= |F|
  {
    forall j :: 0 <= j < i ==> F[j].pos in V && Settled(m, end, B, V, found, F[j].pos)
  }

  /** Between layers: F holds every cell of layer k, and every earlier layer is expanded. */
  ghost predicate Frontier(m: Cells, end: Pos, B: map<Pos, Node>, V: map<Pos, nat>, F: seq<Node>, k: nat)
    requires WellFormed(m)
  {
    && (forall p :: p in V ==> V[p] <= k)
    && (forall p :: p in V && V[p] == k ==> p in PosSet(F))
    && PosSet(F) <= V.Keys
    && LowSettled(m, end, B, V, k)
    && end !in B
    && (forall p :: p in B && B[p].pos in V ==> V[B[p].pos] < k)
  }

  /** While layer k is expanded: newList holds every cell of layer k + 1, each
      newly marked in this layer; a found `end` points back into layer k. */
  ghost predicate Growing(m: Cells, start: Pos, end: Pos, B: map<Pos, Node>, V: map<Pos, nat>,
                          newList: seq<Node>, found: bool, k: nat, B0: set<Pos>)
    requires WellFormed(m)
  {
    && (forall p :: p in V ==> V[p] <= k + 1)
    && (forall p :: p in V && V[p] == k + 1 ==> p in PosSet(newList))
    && (forall p :: p in PosSet(newList) ==> p in V && p in B && p !in B0)
    && (forall p :: p in V && p !in B0 && p != start ==> V[p] == k + 1)
    && (forall p :: p in B && B[p].pos in V ==> V[B[p].pos] <= k)
    && (found ==> end in B && B[end].pos in V && V[B[end].pos] == k)
    && (!found ==> end !in B)
    && B0 <= B.Keys
  }

  lemma SettledGrows(m: Cells, end: Pos, B: map<Pos, Node>, V: map<Pos, nat>, f: bool,
                     B': map<Pos, Node>, V': map<Pos, nat>, f': bool)
    requires WellFormed(m) && B.Keys <= B'.Keys && Extends(V, V') && (f ==> f')
    ensures forall q :: q in V && Settled(m, end, B, V, f, q) ==> Settled(m, end, B', V', f', q)
  {
  }

  // ---------------------------------------------------------------------------
  // The search itself

  lemma TreeAddEnd(m: Cells, start: Pos, end: Pos, B: map<Pos, Node>, V: map<Pos, nat>, from: Node)
    requires WellFormed(m) && Tree(m, start, end, B, V)
    requires from.pos in V && Inside(m, end)
    ensures Tree(m, start, end, B[end := from], V)
  {
  }

  /** A cell reached for the first time joins layer k + 1. */
  lemma {:induction false} TreeAddNew(m: Cells, start: Pos, end: Pos, B: map<Pos, Node>, V: map<Pos, nat>, from: Node, t: Pos, k: nat)
    requires WellFormed(m) && Tree(m, start, end, B, V)
    requires from.pos in V && V[from.pos] == k && Inside(m, t)
    requires t != end && t !in V
    ensures Tree(m, start, end, B[t := from], V[t := k + 1])
  {
    var B', V' := B[t := from], V[t := k + 1];
    forall p | p in B' && p != start && p != end
      ensures V'[B'[p].pos] + 1 == V'[p]
    {
      if p != t {
        assert B'[p] == B[p] && B[p].pos in V;
      }
    }
  }

  /** A visited cell other than start has a visited parent one layer earlier. */
  lemma Parent(m: Cells, start: Pos, end: Pos, B: map<Pos, Node>, V: map<Pos, nat>, p: Pos) returns (q: Pos)
    requires WellFormed(m) && Tree(m, start, end, B, V) && Linked(m, B) && p in V && p != start
    ensures q == B[p].pos && q in V && V[q] + 1 == V[p] && Succ(m, q, p)
  {
    assert p in V.Keys - {start};
    q := B[p].pos;
  }

  /** Every visited cell is reached in exactly its layer's number of steps:
      follow the back-pointers to start. */
  lemma {:induction false} TreeReached(m: Cells, start: Pos, end: Pos, B: map<Pos, Node>, V: map<Pos, nat>, p: Pos)
    requires WellFormed(m) && Tree(m, start, end, B, V) && Linked(m, B) && p in V
    ensures Reached(m, start, V[p], p)
    decreases V[p]
  {
    if p != start {
      var q := Parent(m, start, end, B, V, p);
      TreeReached(m, start, end, B, V, q);
      ParentReached(m, start, end, B, V, p, q);
    }
  }

  lemma ParentReached(m: Cells, start: Pos, end: Pos, B: map<Pos, Node>, V: map<Pos, nat>, p: Pos, q: Pos)
    requires WellFormed(m) && Tree(m, start, end, B, V) && Linked(m, B) && p in V && p != start
    requires q in V && V[q] + 1 == V[p] && Succ(m, q, p)
    requires Reached(m, start, V[q], q)
    ensures Reached(m, start, V[p], p)
  {
    ReachStep(m, start, V[q], q, p);
  }

  /** start is not marked when the search begins, so a step back onto it marks it. */
  lemma TreeAddStart(m: Cells, start: Pos, end: Pos, B: map<Pos, Node>, V: map<Pos, nat>, from: Node)
    requires WellFormed(m) && Tree(m, start, end, B, V)
    requires from.pos in V
    ensures Tree(m, start, end, B[start := from], V)
  {
  }

  /** The neighbour of q in direction d is marked, and is `end` only once found. */
  ghost predicate Done(m: Cells, end: Pos, B: map<Pos, Node>, V: map<Pos, nat>, found: bool, q: Pos, d: nat)
    requires WellFormed(m) && d < 4
  {
    var e := Enter(m, RenderOrder(q)[d]);
    e.Some? ==> e.value.pos in B && (e.value.pos == end ==> found) && (e.value.pos != end ==> e.value.pos in V)
  }

  lemma DoneGrows(m: Cells, end: Pos, B: map<Pos, Node>, V: map<Pos, nat>, f: bool,
                  B': map<Pos, Node>, V': map<Pos, nat>, f': bool, q: Pos, d: nat)
    requires WellFormed(m) && d < 4 && Done(m, end, B, V, f, q, d)
    requires B.Keys <= B'.Keys && Extends(V, V') && (f ==> f')
    ensures Done(m, end, B', V', f', q, d)
  {
  }

  lemma SettledAt(m: Cells, end: Pos, B: map<Pos, Node>, V: map<Pos, nat>, f: bool,
                  B': map<Pos, Node>, V': map<Pos, nat>, f': bool, q: Pos)
    requires WellFormed(m) && q in V && B.Keys <= B'.Keys && Extends(V, V') && (f ==> f')
    requires Settled(m, end, B, V, f, q)
    ensures Settled(m, end, B', V', f', q)
  {
  }

  /** All four neighbours done: q is expanded. */
  lemma Expanded(m: Cells, start: Pos, end: Pos, B: map<Pos, Node>, V: map<Pos, nat>,
                 newList: seq<Node>, found: bool, k: nat, B0: set<Pos>, q: Pos)
    requires WellFormed(m) && Growing(m, start, end, B, V, newList, found, k, B0)
    requires q in V && V[q] <= k && (V[q] < k ==> Settled(m, end, B, V, false, q))
    requires Done(m, end, B, V, found, q, 0) && Done(m, end, B, V, found, q, 1)
    requires Done(m, end, B, V, found, q, 2) && Done(m, end, B, V, found, q, 3)
    ensures Settled(m, end, B, V, found, q)
  {
    forall s | Succ(m, q, s)
      ensures s in B && (s == end ==> found) && (s != end ==> s in V && V[s] <= V[q] + 1)
    {
      var d :| 0 <= d < 4 && Hit(m, RenderOrder(q)[d], s);
      assert Done(m, end, B, V, found, q, d);
      if V[q] < k {
        assert Settled(m, end, B, V, false, q);
      }
    }
  }

  /** steps[t.y][t.x] = n. */
  method Mark(steps: array2<Option<Node>>, t: Pos, n: Node, ghost B: map<Pos, Node>)
    requires 0 <= t.y < steps.Length0 && 0 <= t.x < steps.Length1
    requires Mirrors(steps, B)
    modifies steps
    ensures Mirrors(steps, B[t := n])
  {
    steps[t.y, t.x] := Some(n);
  }

  lemma GrowingAddEnd(m: Cells, start: Pos, end: Pos, B: map<Pos, Node>, V: map<Pos, nat>,
                      newList: seq<Node>, found: bool, k: nat, B0: set<Pos>, from: Node)
    requires WellFormed(m) && Growing(m, start, end, B, V, newList, found, k, B0)
    requires from.pos in V && V[from.pos] == k
    ensures Growing(m, start, end, B[end := from], V, newList, true, k, B0)
  {
  }

  lemma GrowingAddNew(m: Cells, start: Pos, end: Pos, B: map<Pos, Node>, V: map<Pos, nat>,
                      newList: seq<Node>, found: bool, k: nat, B0: set<Pos>, from: Node, t: Node)
    requires WellFormed(m) && Growing(m, start, end, B, V, newList, found, k, B0)
    requires from.pos in V && V[from.pos] <= k && forall p :: p in B ==> B[p].pos in V
    requires t.pos != end && t.pos !in B && t.pos !in V
    ensures Growing(m, start, end, B[t.pos := from], V[t.pos := k + 1], newList + [t], found, k, B0)
  {
    assert PosSet(newList + [t]) == PosSet(newList) + {t.pos};
    var B', V' := B[t.pos := from], V[t.pos := k + 1];
    forall p | p in B' && B'[p].pos in V'
      ensures V'[B'[p].pos] <= k
    {
      if p == t.pos {
        assert B'[p] == from && from.pos != t.pos;
      } else {
        assert B'[p] == B[p] && B[p].pos in V;
      }
    }
  }

  lemma GrowingAddStart(m: Cells, start: Pos, end: Pos, B: map<Pos, Node>, V: map<Pos, nat>,
                        newList: seq<Node>, found: bool, k: nat, B0: set<Pos>, from: Node, t: Node)
    requires WellFormed(m) && Growing(m, start, end, B, V, newList, found, k, B0)
    requires from.pos in V && V[from.pos] <= k
    requires t.pos != end && t.pos !in B && t.pos in V
    ensures Growing(m, start, end, B[t.pos := from], V, newList + [t], found, k, B0)
  {
    assert PosSet(newList + [t]) == PosSet(newList) + {t.pos};
  }

  /** Node n is what one step from c produces. */
  ghost predicate NodeStep(m: Cells, c: Pos, n: Node)
    requires WellFormed(m)
  {
    exists d :: 0 <= d < 4 && Enter(m, RenderOrder(c)[d]) == Some(n)
  }

  /** Node n is what the step from the cell its back-pointer names produced. */
  ghost predicate Entered(m: Cells, B: map<Pos, Node>, n: Node)
    requires WellFormed(m)
  {
    n.pos in B && NodeStep(m, B[n.pos].pos, n)
  }

  /** A node the search can hold: the start node, or a node a step produced
      (never one for `end`, which is not put on a list). */
  ghost predicate Sourced(m: Cells, start: Pos, end: Pos, B: map<Pos, Node>, n: Node)
    requires WellFormed(m)
  {
    n == Node(start, false) || (n.pos != end && Entered(m, B, n))
  }

  /** Every back-pointer is a node the search can hold. */
  ghost predicate Backed(m: Cells, start: Pos, end: Pos, B: map<Pos, Node>)
    requires WellFormed(m)
  {
    forall p :: p in B ==> Sourced(m, start, end, B, B[p])
  }

  /** Every node of L is a node the search can hold. */
  ghost predicate Listed(m: Cells, start: Pos, end: Pos, B: map<Pos, Node>, L: seq<Node>)
    requires WellFormed(m)
  {
    forall i :: 0 <= i < |L| ==> Sourced(m, start, end, B, L[i])
  }

  /** While layer F is expanded into L: the back-pointers and both lists hold
      nodes the search can hold. */
  ghost predicate Rooted(m: Cells, start: Pos, end: Pos, B: map<Pos, Node>, F: seq<Node>, L: seq<Node>)
    requires WellFormed(m)
  {
    Backed(m, start, end, B) && Listed(m, start, end, B, F) && Listed(m, start, end, B, L)
  }

  /** Marking a new cell, or the end again, keeps every node sourced. */
  lemma SourcedKept(m: Cells, start: Pos, end: Pos, B: map<Pos, Node>, t: Pos, from: Node, n: Node)
    requires WellFormed(m) && (t !in B || t == end) && Sourced(m, start, end, B, n)
    ensures Sourced(m, start, end, B[t := from], n)
  {
    if n != Node(start, false) {
      assert n.pos != t && B[t := from][n.pos] == B[n.pos];
    }
  }

  lemma RootedMark(m: Cells, start: Pos, end: Pos, B: map<Pos, Node>, F: seq<Node>, L: seq<Node>, t: Pos, from: Node)
    requires WellFormed(m) && Rooted(m, start, end, B, F, L)
    requires (t !in B || t == end) && Sourced(m, start, end, B, from)
    ensures Rooted(m, start, end, B[t := from], F, L)
  {
    var B' := B[t := from];
    SourcedKept(m, start, end, B, t, from, from);
    forall p | p in B'
      ensures Sourced(m, start, end, B', B'[p])
    {
      if p != t {
        SourcedKept(m, start, end, B, t, from, B[p]);
      }
    }
    forall i | 0 <= i < |F|
      ensures Sourced(m, start, end, B', F[i])
    {
      SourcedKept(m, start, end, B, t, from, F[i]);
    }
    forall i | 0 <= i < |L|
      ensures Sourced(m, start, end, B', L[i])
    {
      SourcedKept(m, start, end, B, t, from, L[i]);
    }
  }

  /** The node a step from `from` produced, put on the list with `from` as its
      back-pointer, is sourced. */
  lemma RootedAdmit(m: Cells, start: Pos, end: Pos, B: map<Pos, Node>, F: seq<Node>, L: seq<Node>, from: Node, to: Node)
    requires WellFormed(m) && Rooted(m, start, end, B, F, L)
    requires to.pos !in B && to.pos != end && Sourced(m, start, end, B, from) && NodeStep(m, from.pos, to)
    ensures Rooted(m, start, end, B[to.pos := from], F, L + [to])
  {
    var B' := B[to.pos := from];
    RootedMark(m, start, end, B, F, L, to.pos, from);
    assert Entered(m, B', to);
    assert (L + [to])[|L|] == to;
    assert forall i :: 0 <= i < |L| ==> (L + [to])[i] == L[i];
  }

  /** The search state that _render keeps: back-pointers, next list, found flag. */
  datatype SearchState = SearchState(B: map<Pos, Node>, list: seq<Node>, found: bool)

  /** What one `next(from, to)` call does, for the neighbour of `from` in
      direction d: nothing when it is not entered; the target is (re)marked
      with `from`, overwriting an earlier back-pointer, and flagged found; an
      unmarked cell is marked with `from` and its node appended; a marked
      cell is left alone. */
  ghost function NextEffect(m: Cells, end: Pos, from: Node, d: nat,
                            B: map<Pos, Node>, list: seq<Node>, found: bool): SearchState
    requires WellFormed(m) && d < 4
  {
    match Enter(m, RenderOrder(from.pos)[d])
    case None => SearchState(B, list, found)
    case Some(n) =>
      if n.pos == end then SearchState(B[end := from], list, true)
      else if n.pos !in B then SearchState(B[n.pos := from], list + [n], found)
      else SearchState(B, list, found)
  }

  /** The inner `next(from, to)` of _render, for the neighbour of `from` in
      direction d. */
  method Visit(m: Cells, steps: array2<Option<Node>>, start: Pos, end: Pos, from: Node, d: nat,
               newList: seq<Node>, found: bool,
               ghost B: map<Pos, Node>, ghost V: map<Pos, nat>, ghost k: nat, ghost B0: set<Pos>,
               ghost F: seq<Node>, ghost i: nat)
    returns (newList': seq<Node>, found': bool, ghost B': map<Pos, Node>, ghost V': map<Pos, nat>)
    requires WellFormed(m) && steps.Length0 == |m| && steps.Length1 == |m[0]|
    requires Inside(m, from.pos) && d < 4 && i < |F| && from == F[i]
    requires Mirrors(steps, B) && Tree(m, start, end, B, V) && Linked(m, B) && Growing(m, start, end, B, V, newList, found, k, B0)
    requires Rooted(m, start, end, B, F, newList)
    requires from.pos in V && V[from.pos] <= k && (V[from.pos] < k ==> Settled(m, end, B, V, false, from.pos))
    modifies steps
    ensures Mirrors(steps, B') && Tree(m, start, end, B', V') && Linked(m, B') && Growing(m, start, end, B', V', newList', found', k, B0)
    ensures Rooted(m, start, end, B', F, newList')
    ensures B.Keys <= B'.Keys && Extends(V, V') && (found ==> found')
    ensures Done(m, end, B', V', found', from.pos, d)
    ensures SearchState(B', newList', found') == NextEffect(m, end, from, d, B, newList, found)
  {
    var to := RenderOrder(from.pos)[d];
    assert Near(m, to);
    var e := Enter(m, to);
    newList', found', B', V' := newList, found, B, V;
    if e.Some? {
      var t := e.value.pos;
      assert Hit(m, RenderOrder(from.pos)[d], t);
      assert Succ(m, from.pos, t);
      if t == end {
        assert V[from.pos] == k;
        Mark(steps, t, from, B);
        found' := true;
        B' := B[end := from];
        TreeAddEnd(m, start, end, B, V, from);
        LinkedAdd(m, B, t, from);
        GrowingAddEnd(m, start, end, B, V, newList, found, k, B0, from);
        RootedMark(m, start, end, B, F, newList, t, from);
      } else if steps[t.y, t.x].None? {
        assert t !in B;
        assert NodeStep(m, from.pos, e.value);
        newList', B', V' := Admit(m, steps, start, end, from, e.value, newList, found, B, V, k, B0, F, i);
      } else {
        assert t in B;
      }
    }
  }

  /** The unmarked, open neighbour `to` of `from`, other than the end, is
      marked with `from` and put on the next list. */
  method Admit(m: Cells, steps: array2<Option<Node>>, start: Pos, end: Pos, from: Node, to: Node,
               newList: seq<Node>, found: bool,
               ghost B: map<Pos, Node>, ghost V: map<Pos, nat>, ghost k: nat, ghost B0: set<Pos>,
               ghost F: seq<Node>, ghost i: nat)
    returns (newList': seq<Node>, ghost B': map<Pos, Node>, ghost V': map<Pos, nat>)
    requires WellFormed(m) && steps.Length0 == |m| && steps.Length1 == |m[0]|
    requires Inside(m, from.pos) && Succ(m, from.pos, to.pos) && NodeStep(m, from.pos, to)
    requires to.pos != end && to.pos !in B && i < |F| && from == F[i]
    requires Mirrors(steps, B) && Tree(m, start, end, B, V) && Linked(m, B) && Growing(m, start, end, B, V, newList, found, k, B0)
    requires Rooted(m, start, end, B, F, newList)
    requires from.pos in V && V[from.pos] <= k && (V[from.pos] < k ==> Settled(m, end, B, V, false, from.pos))
    modifies steps
    ensures Mirrors(steps, B') && Tree(m, start, end, B', V') && Linked(m, B') && Growing(m, start, end, B', V', newList', found, k, B0)
    ensures Rooted(m, start, end, B', F, newList')
    ensures B' == B[to.pos := from] && newList' == newList + [to] && Extends(V, V') && to.pos in V'
  {
    Mark(steps, to.pos, from, B);
    newList' := newList + [to];
    B' := B[to.pos := from];
    V' := AddCell(m, start, end, from, to, newList, found, B, V, k, B0);
    RootedAdmit(m, start, end, B, F, newList, from, to);
  }

  /** The ghost side of Admit: the cell joins the next layer, unless it is
      start, which keeps layer 0. */
  lemma AddCell(m: Cells, start: Pos, end: Pos, from: Node, to: Node,
                newList: seq<Node>, found: bool,
                B: map<Pos, Node>, V: map<Pos, nat>, k: nat, B0: set<Pos>)
    returns (V': map<Pos, nat>)
    requires WellFormed(m) && Inside(m, from.pos) && Succ(m, from.pos, to.pos)
    requires to.pos != end && to.pos !in B
    requires Tree(m, start, end, B, V) && Linked(m, B) && Growing(m, start, end, B, V, newList, found, k, B0)
    requires from.pos in V && V[from.pos] <= k && (V[from.pos] < k ==> Settled(m, end, B, V, false, from.pos))
    ensures Tree(m, start, end, B[to.pos := from], V') && Linked(m, B[to.pos := from])
    ensures Growing(m, start, end, B[to.pos := from], V', newList + [to], found, k, B0)
    ensures Extends(V, V') && to.pos in V'
  {
    var t := to.pos;
    LinkedAdd(m, B, t, from);
    if t !in V {
      assert V[from.pos] == k;
      V' := V[t := k + 1];
      SuccInside(m, from.pos, t);
      TreeAddNew(m, start, end, B, V, from, t, k);
      GrowingAddNew(m, start, end, B, V, newList, found, k, B0, from, to);
    } else {
      assert t == start;
      V' := V;
      TreeAddStart(m, start, end, B, V, from);
      GrowingAddStart(m, start, end, B, V, newList, found, k, B0, from, to);
    }
  }

  /** Two of the four `next` calls of one `list.forEach` step of _render: the
      neighbours of `from` in directions d and d + 1. */
  method ExpandTwo(m: Cells, steps: array2<Option<Node>>, start: Pos, end: Pos, from: Node, d: nat,
                   newList: seq<Node>, found: bool,
                   ghost B: map<Pos, Node>, ghost V: map<Pos, nat>, ghost k: nat, ghost B0: set<Pos>,
                   ghost F: seq<Node>, ghost i: nat)
    returns (newList': seq<Node>, found': bool, ghost B': map<Pos, Node>, ghost V': map<Pos, nat>)
    requires WellFormed(m) && steps.Length0 == |m| && steps.Length1 == |m[0]|
    requires Inside(m, from.pos) && d + 1 < 4 && i < |F| && from == F[i]
    requires Mirrors(steps, B) && Tree(m, start, end, B, V) && Linked(m, B) && Growing(m, start, end, B, V, newList, found, k, B0)
    requires Rooted(m, start, end, B, F, newList)
    requires from.pos in V && V[from.pos] <= k && (V[from.pos] < k ==> Settled(m, end, B, V, false, from.pos))
    modifies steps
    ensures Mirrors(steps, B') && Tree(m, start, end, B', V') && Linked(m, B') && Growing(m, start, end, B', V', newList', found', k, B0)
    ensures Rooted(m, start, end, B', F, newList')
    ensures B.Keys <= B'.Keys && Extends(V, V') && (found ==> found')
    ensures from.pos in V' && V'[from.pos] == V[from.pos]
    ensures V'[from.pos] < k ==> Settled(m, end, B', V', false, from.pos)
    ensures Done(m, end, B', V', found', from.pos, d) && Done(m, end, B', V', found', from.pos, d + 1)
  {
    ghost var B1, V1;
    var f1;
    newList', f1, B1, V1 := Visit(m, steps, start, end, from, d, newList, found, B, V, k, B0, F, i);
    if V[from.pos] < k { SettledAt(m, end, B, V, false, B1, V1, false, from.pos); }
    newList', found', B', V' := Visit(m, steps, start, end, from, d + 1, newList', f1, B1, V1, k, B0, F, i);
    if V[from.pos] < k { SettledAt(m, end, B1, V1, false, B', V', false, from.pos); }
    DoneGrows(m, end, B1, V1, f1, B', V', found', from.pos, d);
  }

  /** One `list.forEach` step of _render: the four neighbours of `from`, after
      which `from` is expanded. */
  method Expand(m: Cells, steps: array2<Option<Node>>, start: Pos, end: Pos, from: Node,
                newList: seq<Node>, found: bool,
                ghost B: map<Pos, Node>, ghost V: map<Pos, nat>, ghost k: nat, ghost B0: set<Pos>,
                ghost F: seq<Node>, ghost i: nat)
    returns (newList': seq<Node>, found': bool, ghost B': map<Pos, Node>, ghost V': map<Pos, nat>)
    requires WellFormed(m) && steps.Length0 == |m| && steps.Length1 == |m[0]|
    requires Inside(m, from.pos) && i < |F| && from == F[i]
    requires Mirrors(steps, B) && Tree(m, start, end, B, V) && Linked(m, B) && Growing(m, start, end, B, V, newList, found, k, B0)
    requires Rooted(m, start, end, B, F, newList)
    requires from.pos in V && V[from.pos] <= k && (V[from.pos] < k ==> Settled(m, end, B, V, false, from.pos))
    modifies steps
    ensures Mirrors(steps, B') && Tree(m, start, end, B', V') && Linked(m, B') && Growing(m, start, end, B', V', newList', found', k, B0)
    ensures Rooted(m, start, end, B', F, newList')
    ensures B.Keys <= B'.Keys && Extends(V, V') && (found ==> found')
    ensures Settled(m, end, B', V', found', from.pos)
  {
    ghost var B1, V1;
    var f1;
    newList', f1, B1, V1 := ExpandTwo(m, steps, start, end, from, 0, newList, found, B, V, k, B0, F, i);
    newList', found', B', V' := ExpandTwo(m, steps, start, end, from, 2, newList', f1, B1, V1, k, B0, F, i);
    HalvesExpanded(m, start, end, B1, V1, f1, B', V', newList', found', k, B0, from.pos);
  }

  /** The four directions, done in two halves, leave cell q expanded. */
  lemma HalvesExpanded(m: Cells, start: Pos, end: Pos, B1: map<Pos, Node>, V1: map<Pos, nat>, f1: bool,
                       B: map<Pos, Node>, V: map<Pos, nat>, newList: seq<Node>, found: bool, k: nat, B0: set<Pos>, q: Pos)
    requires WellFormed(m) && Growing(m, start, end, B, V, newList, found, k, B0)
    requires Done(m, end, B1, V1, f1, q, 0) && Done(m, end, B1, V1, f1, q, 1)
    requires B1.Keys <= B.Keys && Extends(V1, V) && (f1 ==> found)
    requires q in V && V[q] <= k && (V[q] < k ==> Settled(m, end, B, V, false, q))
    requires Done(m, end, B, V, found, q, 2) && Done(m, end, B, V, found, q, 3)
    ensures Settled(m, end, B, V, found, q)
  {
    DoneGrows(m, end, B1, V1, f1, B, V, found, q, 0);
    DoneGrows(m, end, B1, V1, f1, B, V, found, q, 1);
    Expanded(m, start, end, B, V, newList, found, k, B0, q);
  }

  lemma LowSettledGrows(m: Cells, end: Pos, B: map<Pos, Node>, V: map<Pos, nat>,
                        B': map<Pos, Node>, V': map<Pos, nat>, k: nat)
    requires WellFormed(m) && LowSettled(m, end, B, V, k)
    requires B.Keys <= B'.Keys && Extends(V, V')
    requires forall p :: p in V' && p !in V ==> V'[p] >= k
    ensures LowSettled(m, end, B', V', k)
  {
    forall p | p in V' && V'[p] < k
      ensures Settled(m, end, B', V', false, p)
    {
      SettledAt(m, end, B, V, false, B', V', false, p);
    }
  }

  lemma PrefixGrows(m: Cells, end: Pos, B: map<Pos, Node>, V: map<Pos, nat>, f: bool,
                    B': map<Pos, Node>, V': map<Pos, nat>, f': bool, F: seq<Node>, i: nat)
    requires WellFormed(m) && i < |F| && PrefixSettled(m, end, B, V, f, F, i)
    requires B.Keys <= B'.Keys && Extends(V, V') && (f ==> f')
    requires F[i].pos in V' && Settled(m, end, B', V', f', F[i].pos)
    ensures PrefixSettled(m, end, B', V', f', F, i + 1)
  {
    forall j | 0 <= j < i
      ensures F[j].pos in V' && Settled(m, end, B', V', f', F[j].pos)
    {
      SettledAt(m, end, B, V, f, B', V', f', F[j].pos);
    }
  }

  /** A layer whose cells are all expanded without finding `end` leaves the
      search between layers again, one layer further. */
  lemma LayerClosed(m: Cells, start: Pos, end: Pos, B: map<Pos, Node>, V: map<Pos, nat>, F: seq<Node>, k: nat,
                    B': map<Pos, Node>, V': map<Pos, nat>, newList: seq<Node>)
    requires WellFormed(m) && Tree(m, start, end, B, V) && Frontier(m, end, B, V, F, k)
    requires Extends(V, V') && Growing(m, start, end, B', V', newList, false, k, B.Keys)
    requires LowSettled(m, end, B', V', k) && PrefixSettled(m, end, B', V', false, F, |F|)
    ensures Frontier(m, end, B', V', newList, k + 1)
  {
    forall p | p in V' && V'[p] < k + 1
      ensures Settled(m, end, B', V', false, p)
    {
      if V'[p] == k {
        assert p in V;
        assert p in PosSet(F);
        var n :| n in F && n.pos == p;
        var j :| 0 <= j < |F| && F[j] == n;
      }
    }
  }

  /** The layer that finds `end` still expands all its cells, so every layer up
      to it is expanded. */
  lemma FoundClosed(m: Cells, start: Pos, end: Pos, B: map<Pos, Node>, V: map<Pos, nat>, F: seq<Node>, k: nat,
                    B': map<Pos, Node>, V': map<Pos, nat>, newList: seq<Node>)
    requires WellFormed(m) && Tree(m, start, end, B, V) && Frontier(m, end, B, V, F, k)
    requires Extends(V, V') && Growing(m, start, end, B', V', newList, true, k, B.Keys)
    requires LowSettled(m, end, B', V', k) && PrefixSettled(m, end, B', V', true, F, |F|)
    ensures LayersDone(m, end, B', V', k)
  {
    forall p | p in V' && V'[p] <= k
      ensures Settled(m, end, B', V', true, p)
    {
      if V'[p] == k {
        assert p in V;
        assert p in PosSet(F);
        var n :| n in F && n.pos == p;
        var j :| 0 <= j < |F| && F[j] == n;
      } else {
        SettledAt(m, end, B', V', false, B', V', true, p);
      }
    }
  }

  /** Cells marked since the layer began belong to the next layer. */
  lemma NewCellsLate(m: Cells, start: Pos, end: Pos, B: map<Pos, Node>, V: map<Pos, nat>,
                     B': map<Pos, Node>, V': map<Pos, nat>, newList: seq<Node>, found: bool, k: nat)
    requires WellFormed(m) && Tree(m, start, end, B, V) && Tree(m, start, end, B', V')
    requires Extends(V, V') && Growing(m, start, end, B', V', newList, found, k, B.Keys)
    ensures forall p :: p in V' && p !in V ==> V'[p] >= k
  {
    forall p | p in V' && p !in V
      ensures V'[p] >= k
    {
      assert p != start && p != end;
    }
  }

  /** One turn of the `list.forEach` of _render: expands F[i]. */
  method RenderStep(m: Cells, steps: array2<Option<Node>>, start: Pos, end: Pos, F: seq<Node>, i: nat,
                    newList: seq<Node>, found: bool,
                    ghost B: map<Pos, Node>, ghost V: map<Pos, nat>, ghost k: nat,
                    ghost B': map<Pos, Node>, ghost V': map<Pos, nat>)
    returns (newList': seq<Node>, found': bool, ghost B'': map<Pos, Node>, ghost V'': map<Pos, nat>)
    requires WellFormed(m) && steps.Length0 == |m| && steps.Length1 == |m[0]|
    requires Tree(m, start, end, B, V) && Frontier(m, end, B, V, F, k) && i < |F|
    requires Mirrors(steps, B') && Tree(m, start, end, B', V') && Linked(m, B')
    requires Growing(m, start, end, B', V', newList, found, k, B.Keys)
    requires Extends(V, V') && PrefixSettled(m, end, B', V', found, F, i)
    requires Rooted(m, start, end, B', F, newList)
    modifies steps
    ensures Mirrors(steps, B'') && Tree(m, start, end, B'', V'') && Linked(m, B'')
    ensures Growing(m, start, end, B'', V'', newList', found', k, B.Keys)
    ensures Extends(V, V'') && PrefixSettled(m, end, B'', V'', found', F, i + 1)
    ensures Rooted(m, start, end, B'', F, newList')
  {
    var from := F[i];
    assert from.pos in PosSet(F);
    NewCellsLate(m, start, end, B, V, B', V', newList, found, k);
    LowSettledGrows(m, end, B, V, B', V', k);
    newList', found', B'', V'' := Expand(m, steps, start, end, from, newList, found, B', V', k, B.Keys, F, i);
    PrefixGrows(m, end, B', V', found, B'', V'', found', F, i);
  }

  /** The `list.forEach` of _render: expands every cell of layer k. */
  method Render(m: Cells, steps: array2<Option<Node>>, start: Pos, end: Pos, F: seq<Node>,
                ghost B: map<Pos, Node>, ghost V: map<Pos, nat>, ghost k: nat)
    returns (newList: seq<Node>, found: bool, ghost B': map<Pos, Node>, ghost V': map<Pos, nat>)
    requires WellFormed(m) && steps.Length0 == |m| && steps.Length1 == |m[0]|
    requires Mirrors(steps, B) && Tree(m, start, end, B, V) && Linked(m, B) && Frontier(m, end, B, V, F, k)
    requires Rooted(m, start, end, B, F, [])
    modifies steps
    ensures Mirrors(steps, B') && Tree(m, start, end, B', V') && Linked(m, B')
    ensures Rooted(m, start, end, B', F, newList)
    ensures B.Keys <= B'.Keys && Extends(V, V')
    ensures forall p :: p in PosSet(newList) ==> p in B' && p !in B
    ensures found ==> FoundAt(m, end, B', V', k)
    ensures !found ==> Frontier(m, end, B', V', newList, k + 1)
  {
    newList, found, B', V' := [], false, B, V;
    var i := 0;
    while i < |F|
      invariant 0 <= i <= |F|
      invariant Mirrors(steps, B') && Tree(m, start, end, B', V') && Linked(m, B')
      invariant Growing(m, start, end, B', V', newList, found, k, B.Keys)
      invariant Extends(V, V') && PrefixSettled(m, end, B', V', found, F, i)
      invariant Rooted(m, start, end, B', F, newList)
    {
      newList, found, B', V' := RenderStep(m, steps, start, end, F, i, newList, found, B, V, k, B', V');
      i := i + 1;
    }
    NewCellsLate(m, start, end, B, V, B', V', newList, found, k);
    LowSettledGrows(m, end, B, V, B', V', k);
    if !found {
      LayerClosed(m, start, end, B, V, F, k, B', V', newList);
    } else {
      FoundClosed(m, start, end, B, V, F, k, B', V', newList);
    }
  }

  /** The cells of the grid. */
  ghost function AllCells(m: Cells): set<Pos>
    requires WellFormed(m)
  {
    set x, y | 0 <= y < |m| && 0 <= x < |m[0]| :: Pos(x, y)
  }

  /** The state before the first layer: only start is visited, nothing is marked. */
  lemma Initial(m: Cells, start: Pos, end: Pos)
    requires WellFormed(m) && Inside(m, start)
    ensures Tree(m, start, end, map[], map[start := 0]) && Linked(m, map[])
    ensures Frontier(m, end, map[], map[start := 0], [Node(start, false)], 0)
  {
    assert PosSet([Node(start, false)]) == {start};
  }

  /** A layer that marks a new cell shrinks the set of unmarked cells. */
  lemma Progress(m: Cells, B: map<Pos, Node>, B': map<Pos, Node>, p: Pos)
    requires WellFormed(m) && B.Keys <= B'.Keys && p in B' && p !in B && Inside(m, p)
    ensures AllCells(m) - B'.Keys < AllCells(m) - B.Keys
  {
    assert p == Pos(p.x, p.y);
    assert p in AllCells(m) - B.Keys;
  }

  /** How the search stops: it met `end` from layer k, or layer k + 1 came
      out empty. */
  ghost predicate Stopped(m: Cells, end: Pos, B: map<Pos, Node>, V: map<Pos, nat>, found: bool, k: nat)
    requires WellFormed(m)
  {
    if found then FoundAt(m, end, B, V, k) else Frontier(m, end, B, V, [], k + 1)
  }

  /** One call of _render: expands layer k from `list`; the search goes on
      (`more`) with the next layer when this one neither met `end` nor came
      out empty, and then at least one more cell is marked. */
  method Layer(m: Cells, steps: array2<Option<Node>>, start: Pos, end: Pos, list: seq<Node>,
               ghost B: map<Pos, Node>, ghost V: map<Pos, nat>, ghost k: nat)
    returns (more: bool, found: bool, list': seq<Node>, ghost B': map<Pos, Node>, ghost V': map<Pos, nat>)
    requires WellFormed(m) && steps.Length0 == |m| && steps.Length1 == |m[0]|
    requires Mirrors(steps, B) && Tree(m, start, end, B, V) && Linked(m, B) && Frontier(m, end, B, V, list, k)
    requires Rooted(m, start, end, B, list, [])
    modifies steps
    ensures Mirrors(steps, B') && Tree(m, start, end, B', V') && Linked(m, B') && B.Keys <= B'.Keys
    ensures Backed(m, start, end, B') && (more ==> Rooted(m, start, end, B', list', []))
    ensures more ==> !found && Frontier(m, end, B', V', list', k + 1) && AllCells(m) - B'.Keys < AllCells(m) - B.Keys
    ensures !more ==> Stopped(m, end, B', V', found, k)
  {
    list', found, B', V' := Render(m, steps, start, end, list, B, V, k);
    more := !found && |list'| > 0;
    if more {
      var p := list'[0].pos;
      assert p in PosSet(list');
      Progress(m, B, B', p);
    }
  }

  /** _render([options.start]) with its tail recursion unrolled into a loop:
      layer after layer until one touches `end` or comes out empty. */
  method Search(m: Cells, steps: array2<Option<Node>>, start: Pos, end: Pos)
    returns (found: bool, ghost B: map<Pos, Node>, ghost V: map<Pos, nat>, ghost k: nat)
    requires WellFormed(m) && steps.Length0 == |m| && steps.Length1 == |m[0]|
    requires Inside(m, start) && Mirrors(steps, map[])
    modifies steps
    ensures Mirrors(steps, B) && Tree(m, start, end, B, V) && Linked(m, B)
    ensures Stopped(m, end, B, V, found, k) && Backed(m, start, end, B)
  {
    var list := [Node(start, false)];
    B, V, k := map[], map[start := 0], 0;
    found := false;
    Initial(m, start, end);
    var more := true;
    while more
      invariant Mirrors(steps, B) && Tree(m, start, end, B, V) && Linked(m, B)
      invariant more ==> !found && Frontier(m, end, B, V, list, k)
      invariant Backed(m, start, end, B) && (more ==> Rooted(m, start, end, B, list, []))
      invariant !more ==> Stopped(m, end, B, V, found, k)
      decreases AllCells(m) - B.Keys, more
    {
      more, found, list, B, V := Layer(m, steps, start, end, list, B, V, k);
      if more {
        k := k + 1;
      }
    }
  }

  /** 'path' mode: from `end`, follow the back-pointers until start, putting
      each node in front of the route. */
  method Trace(m: Cells, steps: array2<Option<Node>>, start: Pos, end: Pos,
               ghost B: map<Pos, Node>, ghost V: map<Pos, nat>, ghost k: nat)
    returns (path: seq<Node>)
    requires WellFormed(m) && steps.Length0 == |m| && steps.Length1 == |m[0]|
    requires Mirrors(steps, B) && Tree(m, start, end, B, V) && Linked(m, B)
    requires end in B && B[end].pos in V && V[B[end].pos] == k
    ensures start == end ==> path == []
    ensures start != end ==> |path| == k + 1 && Walk(m, start, path) && path[|path| - 1] == Node(end, false)
    ensures forall i :: 0 <= i < |path| ==> Inside(m, path[i].pos) && path[i].pos != start
    ensures start != end ==> path[0].pos in B && B[path[0].pos].pos == start
    ensures forall i :: 0 <= i < |path| - 1 ==> BackOf(B, path[i], path[i + 1])
  {
    var current := Node(end, false);
    path := [];
    while current.pos != start
      invariant path == [] ==> current == Node(end, false)
      invariant path != [] ==> current.pos in V && V[current.pos] + |path| == k + 1
      invariant path != [] ==> Succ(m, current.pos, path[0].pos) && path[|path| - 1] == Node(end, false)
      invariant forall i :: 0 <= i < |path| - 1 ==> Succ(m, path[i].pos, path[i + 1].pos)
      invariant forall i :: 0 <= i < |path| ==> Inside(m, path[i].pos) && path[i].pos != start
      invariant path != [] ==> path[0].pos in B && current == B[path[0].pos]
      invariant forall i :: 0 <= i < |path| - 1 ==> BackOf(B, path[i], path[i + 1])
      decreases if path == [] then k + 1 else V[current.pos]
    {
      var p := current.pos;
      assert p in B by {
        if path != [] {
          assert p in V.Keys - {start};
        }
      }
      assert p == Pos(p.x, p.y);
      path := [current] + path;
      current := steps[p.y, p.x].value;
      assert current == B[p];
    }
  }

  /** The nodes of ns whose cells are not marked, in order. */
  function Unmarked(ns: seq<Node>, marked: set<Pos>): (r: seq<Node>)
    ensures |r| <= |ns|
    ensures forall n :: n in r <==> n in ns && n.pos !in marked
  {
    if ns == [] then []
    else if ns[0].pos in marked then Unmarked(ns[1..], marked)
    else [ns[0]] + Unmarked(ns[1..], marked)
  }

  /** _next(to): an entered, unmarked neighbour joins the result. */
  method NextTo(m: Cells, steps: array2<Option<Node>>, to: Pos, result: seq<Node>, ghost B: map<Pos, Node>)
    returns (result': seq<Node>)
    requires WellFormed(m) && steps.Length0 == |m| && steps.Length1 == |m[0]|
    requires Near(m, to) && Mirrors(steps, B)
    ensures result' == result + Unmarked(Candidates(m, [to]), B.Keys)
  {
    var e := Enter(m, to);
    result' := result;
    assert Candidates(m, [to]) == if e.Some? then [e.value] else [];
    if e.Some? {
      var t := e.value.pos;
      assert t == Pos(t.x, t.y);
      if steps[t.y, t.x].None? {
        result' := result + [e.value];
      }
    }
  }

  /** 'next' mode: the entered neighbours of `end`, right, down, left, up, that
      the search left unmarked. */
  method NextSteps(m: Cells, steps: array2<Option<Node>>, end: Pos, ghost B: map<Pos, Node>)
    returns (result: seq<Node>)
    requires WellFormed(m) && steps.Length0 == |m| && steps.Length1 == |m[0]|
    requires Inside(m, end) && Mirrors(steps, B)
    ensures result == Unmarked(Candidates(m, NextOrder(end)), B.Keys)
  {
    var n := NextOrder(end);
    result := NextTo(m, steps, n[0], [], B);
    result := NextTo(m, steps, n[1], result, B);
    result := NextTo(m, steps, n[2], result, B);
    result := NextTo(m, steps, n[3], result, B);
    NextSplit(m, n, B.Keys);
  }

  lemma NextSplit(m: Cells, n: seq<Pos>, marked: set<Pos>)
    requires WellFormed(m) && |n| == 4
    ensures Unmarked(Candidates(m, n), marked)
      == [] + Unmarked(Candidates(m, [n[0]]), marked) + Unmarked(Candidates(m, [n[1]]), marked)
         + Unmarked(Candidates(m, [n[2]]), marked) + Unmarked(Candidates(m, [n[3]]), marked)
  {
    CandidatesFour(m, n);
    UnmarkedFour(Candidates(m, [n[0]]), Candidates(m, [n[1]]), Candidates(m, [n[2]]), Candidates(m, [n[3]]), marked);
  }

  lemma CandidatesFour(m: Cells, n: seq<Pos>)
    requires WellFormed(m) && |n| == 4
    ensures Candidates(m, n) == Candidates(m, [n[0]]) + Candidates(m, [n[1]]) + Candidates(m, [n[2]]) + Candidates(m, [n[3]])
  {
    assert n == [n[0]] + [n[1]] + [n[2]] + [n[3]];
    CandidatesAppend(m, [n[0]], [n[1]]);
    CandidatesAppend(m, [n[0]] + [n[1]], [n[2]]);
    CandidatesAppend(m, [n[0]] + [n[1]] + [n[2]], [n[3]]);
  }

  lemma UnmarkedFour(c0: seq<Node>, c1: seq<Node>, c2: seq<Node>, c3: seq<Node>, marked: set<Pos>)
    ensures Unmarked(c0 + c1 + c2 + c3, marked)
      == [] + Unmarked(c0, marked) + Unmarked(c1, marked) + Unmarked(c2, marked) + Unmarked(c3, marked)
  {
    UnmarkedAppend(c0, c1, marked);
    UnmarkedAppend(c0 + c1, c2, marked);
    UnmarkedAppend(c0 + c1 + c2, c3, marked);
    assert [] + Unmarked(c0, marked) == Unmarked(c0, marked);
  }

  lemma {:induction false} CandidatesAppend(m: Cells, a: seq<Pos>, b: seq<Pos>)
    requires WellFormed(m)
    ensures Candidates(m, a + b) == Candidates(m, a) + Candidates(m, b)
  {
    if a != [] {
      assert (a + b)[1..] == a[1..] + b;
      CandidatesAppend(m, a[1..], b);
    } else {
      assert a + b == b;
    }
  }

  lemma {:induction false} UnmarkedAppend(x: seq<Node>, y: seq<Node>, marked: set<Pos>)
    ensures Unmarked(x + y, marked) == Unmarked(x, marked) + Unmarked(y, marked)
  {
    if x != [] {
      assert (x + y)[1..] == x[1..] + y;
      UnmarkedAppend(x[1..], y, marked);
    } else {
      assert x + y == y;
    }
  }

  // ---------------------------------------------------------------------------
  // What the finished search says about walks in the maze

  /** Below layer k everything is expanded without meeting `end`: a walk of
      j <= k steps stays inside the visited layers, never deeper than j, and
      never ends on `end`. */
  lemma {:induction false} LayersReach(m: Cells, start: Pos, end: Pos, B: map<Pos, Node>, V: map<Pos, nat>,
                                       k: nat, j: nat, c: Pos)
    requires WellFormed(m) && start in V && V[start] == 0 && LowSettled(m, end, B, V, k) && j <= k
    ensures Reached(m, start, j, c) ==> c in V && V[c] <= j && (j >= 1 ==> c != end)
  {
    if j >= 1 && Reached(m, start, j, c) {
      var p :| Reached(m, start, j - 1, p) && Succ(m, p, c);
      LayersReach(m, start, end, B, V, k, j - 1, p);
      assert Settled(m, end, B, V, false, p);
    }
  }

  /** When every visited cell is expanded without meeting `end`, no walk
      leaves the visited cells or ends on `end`. */
  lemma {:induction false} Closed(m: Cells, start: Pos, end: Pos, B: map<Pos, Node>, V: map<Pos, nat>, j: nat, c: Pos)
    requires WellFormed(m) && start in V && forall p :: p in V ==> Settled(m, end, B, V, false, p)
    ensures Reached(m, start, j, c) ==> c in V && (j >= 1 ==> c != end)
  {
    if j >= 1 && Reached(m, start, j, c) {
      var p :| Reached(m, start, j - 1, p) && Succ(m, p, c);
      Closed(m, start, end, B, V, j - 1, p);
      assert Settled(m, end, B, V, false, p);
    }
  }

  /** A search that ran out of cells left every visited cell expanded. */
  lemma Exhausted(m: Cells, start: Pos, end: Pos, B: map<Pos, Node>, V: map<Pos, nat>, k: nat)
    requires WellFormed(m) && Frontier(m, end, B, V, [], k + 1)
    ensures forall p :: p in V ==> Settled(m, end, B, V, false, p)
  {
    forall p | p in V
      ensures Settled(m, end, B, V, false, p)
    {
      assert p !in PosSet([]);
    }
  }

  /** An exhausted search: `end` cannot be reached. */
  lemma Unreachable(m: Cells, start: Pos, end: Pos, B: map<Pos, Node>, V: map<Pos, nat>, k: nat)
    requires WellFormed(m) && Tree(m, start, end, B, V) && Frontier(m, end, B, V, [], k + 1)
    ensures !Reachable(m, start, end)
  {
    Exhausted(m, start, end, B, V, k);
    forall j: nat | j >= 1
      ensures !Reached(m, start, j, end)
    {
      Closed(m, start, end, B, V, j, end);
    }
  }

  /** A search that found `end` from layer k: its distance from start is k + 1. */
  lemma FoundDistance(m: Cells, start: Pos, end: Pos, B: map<Pos, Node>, V: map<Pos, nat>, k: nat)
    requires WellFormed(m) && Tree(m, start, end, B, V) && Linked(m, B)
    requires end in B && B[end].pos in V && V[B[end].pos] == k && LowSettled(m, end, B, V, k)
    ensures Distance(m, start, end, k + 1)
    ensures forall d :: Distance(m, start, end, d) ==> d == k + 1
  {
    var q := B[end].pos;
    TreeReached(m, start, end, B, V, q);
    ReachStep(m, start, k, q, end);
    forall j | 1 <= j < k + 1
      ensures !Reached(m, start, j, end)
    {
      LayersReach(m, start, end, B, V, k, j, end);
    }
  }

  /** After a search that found `end` from layer k, the marked cells are exactly
      those that some walk of 1 to k + 1 steps leads to. */
  lemma MarkedHorizon(m: Cells, start: Pos, end: Pos, B: map<Pos, Node>, V: map<Pos, nat>, k: nat)
    requires WellFormed(m) && Tree(m, start, end, B, V) && Linked(m, B)
    requires FoundAt(m, end, B, V, k)
    ensures B.Keys == Horizon(m, start, k + 1)
  {
    forall c | c in B
      ensures c in Horizon(m, start, k + 1)
    {
      MarkedReached(m, start, end, B, V, k, c);
    }
    forall c | c in Horizon(m, start, k + 1)
      ensures c in B
    {
      var j :| 1 <= j <= k + 1 && Reached(m, start, j, c);
      WithinMarked(m, start, end, B, V, k, j, c);
    }
  }

  /** A marked cell is reached in at most k + 1 steps. */
  lemma MarkedReached(m: Cells, start: Pos, end: Pos, B: map<Pos, Node>, V: map<Pos, nat>, k: nat, c: Pos)
    requires WellFormed(m) && Tree(m, start, end, B, V) && Linked(m, B)
    requires FoundAt(m, end, B, V, k) && c in B
    ensures c in Horizon(m, start, k + 1)
  {
    var q := B[c].pos;
    TreeReached(m, start, end, B, V, q);
    ReachStep(m, start, V[q], q, c);
    assert 1 <= V[q] + 1 <= k + 1;
  }

  /** A cell some walk of 1 to k + 1 steps leads to is a successor of an
      expanded cell, so it is marked. */
  lemma WithinMarked(m: Cells, start: Pos, end: Pos, B: map<Pos, Node>, V: map<Pos, nat>, k: nat, j: nat, c: Pos)
    requires WellFormed(m) && start in V && V[start] == 0
    requires LowSettled(m, end, B, V, k) && LayersDone(m, end, B, V, k)
    requires 1 <= j <= k + 1 && Reached(m, start, j, c)
    ensures c in B
  {
    var p :| Reached(m, start, j - 1, p) && Succ(m, p, c);
    LayersReach(m, start, end, B, V, k, j - 1, p);
    assert Settled(m, end, B, V, true, p);
  }

  /** What 'path' mode promises: nothing when start is the end; otherwise a
      route exactly when `end` can be reached, and then a shortest one. */
  ghost predicate PathAnswer(m: Cells, start: Pos, end: Pos, result: seq<Node>)
    requires WellFormed(m)
  {
    && (start == end ==> result == [])
    && (start != end ==> (result != [] <==> Reachable(m, start, end)))
    && (result != [] ==> ShortestPath(m, start, end, result))
  }

  /** What 'next' mode promises: nothing when `end` cannot be reached;
      otherwise, with d the distance from start to `end`, the entered
      neighbours of `end`, right, down, left, up, that no walk of 1 to d steps
      from start leads to. */
  ghost predicate NextAnswer(m: Cells, start: Pos, end: Pos, result: seq<Node>)
    requires WellFormed(m)
  {
    && (!Reachable(m, start, end) ==> result == [])
    && (forall d :: Distance(m, start, end, d) ==> result == Unmarked(Candidates(m, NextOrder(end)), Horizon(m, start, d)))
  }

  /** A search that ran out of cells answers nothing, rightly in both modes. */
  lemma NotFoundAnswers(m: Cells, start: Pos, end: Pos, B: map<Pos, Node>, V: map<Pos, nat>, k: nat)
    requires WellFormed(m) && Tree(m, start, end, B, V) && Frontier(m, end, B, V, [], k + 1)
    ensures PathAnswer(m, start, end, []) && NextAnswer(m, start, end, [])
  {
    Unreachable(m, start, end, B, V, k);
  }

  /** A route whose nodes are one another's back-pointers, back to start,
      holds the nodes the steps produced. */
  lemma {:induction false} PathSteps(m: Cells, start: Pos, end: Pos, B: map<Pos, Node>, path: seq<Node>)
    requires WellFormed(m) && Backed(m, start, end, B) && path != []
    requires forall i :: 0 <= i < |path| ==> path[i].pos != start
    requires path[0].pos in B && B[path[0].pos].pos == start
    requires forall i :: 0 <= i < |path| - 1 ==> BackOf(B, path[i], path[i + 1])
    ensures Stepped(m, start, path)
  {
    forall i | 0 <= i < |path| - 1
      ensures NodeStep(m, if i == 0 then start else path[i - 1].pos, path[i])
    {
      assert BackOf(B, path[i], path[i + 1]);
      assert Sourced(m, start, end, B, B[path[i + 1].pos]);
      if i > 0 {
        assert BackOf(B, path[i - 1], path[i]);
      }
    }
  }

  /** The route Trace rebuilds after a search that found `end` is a shortest path. */
  lemma PathFound(m: Cells, start: Pos, end: Pos, B: map<Pos, Node>, V: map<Pos, nat>, k: nat, path: seq<Node>)
    requires WellFormed(m) && Tree(m, start, end, B, V) && Linked(m, B) && Backed(m, start, end, B)
    requires FoundAt(m, end, B, V, k)
    requires start == end ==> path == []
    requires start != end ==> |path| == k + 1 && Walk(m, start, path) && path[|path| - 1] == Node(end, false)
    requires forall i :: 0 <= i < |path| ==> Inside(m, path[i].pos) && path[i].pos != start
    requires start != end ==> path[0].pos in B && B[path[0].pos].pos == start
    requires forall i :: 0 <= i < |path| - 1 ==> BackOf(B, path[i], path[i + 1])
    ensures PathAnswer(m, start, end, path)
  {
    FoundDistance(m, start, end, B, V, k);
    if start != end {
      PathSteps(m, start, end, B, path);
    }
  }

  /** The neighbours NextSteps lists after a search that found `end`. */
  lemma NextFound(m: Cells, start: Pos, end: Pos, B: map<Pos, Node>, V: map<Pos, nat>, k: nat, result: seq<Node>)
    requires WellFormed(m) && Tree(m, start, end, B, V) && Linked(m, B)
    requires FoundAt(m, end, B, V, k)
    requires result == Unmarked(Candidates(m, NextOrder(end)), B.Keys)
    ensures NextAnswer(m, start, end, result)
  {
    FoundDistance(m, start, end, B, V, k);
    MarkedHorizon(m, start, end, B, V, k);
    assert Reached(m, start, k + 1, end);
    forall d | Distance(m, start, end, d)
      ensures result == Unmarked(Candidates(m, NextOrder(end)), Horizon(m, start, d))
    {
      assert d == k + 1;
    }
  }

  /** Map.finder for a well-formed grid and endpoints inside it. */
  method Find(m: Cells, start: Pos, end: Pos, mode: Mode) returns (result: seq<Node>)
    requires WellFormed(m) && Inside(m, start) && Inside(m, end)
    ensures m[start.y][start.x] != 0 || m[end.y][end.x] != 0 || mode == OtherMode ==> result == []
    ensures m[start.y][start.x] == 0 && m[end.y][end.x] == 0 && mode == PathMode ==> PathAnswer(m, start, end, result)
    ensures m[start.y][start.x] == 0 && m[end.y][end.x] == 0 && mode == NextMode ==> NextAnswer(m, start, end, result)
  {
    if m[start.y][start.x] != 0 || m[end.y][end.x] != 0 {
      return [];
    }
    var steps := new Option<Node>[|m|, |m[0]|]((y, x) => None);
    var found, B, V, k := Search(m, steps, start, end);
    result := [];
    if !found {
      NotFoundAnswers(m, start, end, B, V, k);
    } else if mode == PathMode {
      result := Trace(m, steps, start, end, B, V, k);
      PathFound(m, start, end, B, V, k, result);
    } else if mode == NextMode {
      result := NextSteps(m, steps, end, B);
      NextFound(m, start, end, B, V, k, result);
    }
  }
}
