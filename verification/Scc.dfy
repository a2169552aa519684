/** Strongly connected components of the incremental call graph: the depth-first numbering of
    xsb_compute_scc, driven by get_incr_sccs over a list of calls.

    A node without out-edges is numbered at once but stays on the search stack, so that it is popped, and
    numbered again, with the next component completed below it.  The final lemmas say exactly what the
    numbering is worth. */
module Scc {

  // `g[v]` lists the nodes that depend on node `v`, as positions in the list of calls.
  type Graph = seq<seq<int>>

  ghost predicate ClosedGraph(g: Graph) {
    forall v, i :: 0 <= v < |g| && 0 <= i < |g[v]| ==> 0 <= g[v][i] < |g|
  }

  ghost predicate Edge(g: Graph, v: int, w: int) {
    0 <= v < |g| && w in g[v]
  }

  ghost predicate ReachIn(g: Graph, a: int, b: int, n: nat)
    decreases n
  {
    if n == 0 then a == b else exists c :: Edge(g, a, c) && ReachIn(g, c, b, n - 1)
  }

  ghost predicate Reach(g: Graph, a: int, b: int) {
    exists n: nat :: ReachIn(g, a, b, n)
  }

  ghost predicate Mutual(g: Graph, a: int, b: int) {
    Reach(g, a, b) && Reach(g, b, a)
  }

  predicate Leaf(g: Graph, v: int)
    requires 0 <= v < |g|
  {
    g[v] == []
  }

  lemma ReachSelf(g: Graph, a: int)
    ensures Reach(g, a, a)
  {
    assert ReachIn(g, a, a, 0);
  }

  lemma ReachEdge(g: Graph, a: int, b: int)
    requires Edge(g, a, b)
    ensures Reach(g, a, b)
  {
    assert ReachIn(g, b, b, 0);
    assert ReachIn(g, a, b, 1);
  }

  lemma {:induction false} ReachInTrans(g: Graph, a: int, b: int, c: int, m: nat, n: nat)
    requires ReachIn(g, a, b, m) && ReachIn(g, b, c, n)
    ensures ReachIn(g, a, c, m + n)
    decreases m
  {
    if m > 0 {
      var d :| Edge(g, a, d) && ReachIn(g, d, b, m - 1);
      ReachInTrans(g, d, b, c, m - 1, n);
    }
  }

  lemma ReachTrans(g: Graph, a: int, b: int, c: int)
    requires Reach(g, a, b) && Reach(g, b, c)
    ensures Reach(g, a, c)
  {
    var m: nat :| ReachIn(g, a, b, m);
    var n: nat :| ReachIn(g, b, c, n);
    ReachInTrans(g, a, b, c, m, n);
  }

  /** A path from inside a set to outside it crosses the border. */
  lemma {:induction false} CrossingIn(g: Graph, a: int, b: int, n: nat, s: set<int>) returns (u: int, w: int)
    requires ReachIn(g, a, b, n) && a in s && b !in s
    ensures u in s && w !in s && Edge(g, u, w) && Reach(g, w, b)
    decreases n
  {
    var c :| Edge(g, a, c) && ReachIn(g, c, b, n - 1);
    if c in s {
      u, w := CrossingIn(g, c, b, n - 1, s);
    } else {
      u, w := a, c;
    }
  }

  lemma Crossing(g: Graph, a: int, b: int, s: set<int>) returns (u: int, w: int)
    requires Reach(g, a, b) && a in s && b !in s
    ensures u in s && w !in s && Edge(g, u, w) && Reach(g, w, b)
  {
    var n: nat :| ReachIn(g, a, b, n);
    u, w := CrossingIn(g, a, b, n, s);
  }

  lemma StaysInside(g: Graph, a: int, b: int, s: set<int>)
    requires forall u, w :: u in s && Edge(g, u, w) ==> w in s
    requires a in s && Reach(g, a, b)
    ensures b in s
  {
    if b !in s {
      var u, w := Crossing(g, a, b, s);
    }
  }

  // ---------------------------------------------------------------- the search state

  datatype SccNode = SccNode(dfn: int, component: int, low: int, stack: int)

  predicate Visited(ns: seq<SccNode>, v: int) {
    0 <= v < |ns| && ns[v].dfn != 0
  }

  // An inner node that is on the search stack.
  predicate Live(g: Graph, ns: seq<SccNode>, v: int) {
    0 <= v < |g| && v < |ns| && !Leaf(g, v) && ns[v].dfn != 0 && ns[v].component == 0
  }

  ghost predicate Numbers(g: Graph, ns: seq<SccNode>, dfn: int, comp: int) {
    && |ns| == |g|
    && 1 <= dfn && 1 <= comp
    && (forall v :: 0 <= v < |ns| ==>
          && 0 <= ns[v].dfn < dfn && 0 <= ns[v].component < comp
          && (ns[v].dfn == 0 ==> ns[v].component == 0)
          && (Leaf(g, v) && ns[v].dfn != 0 ==> ns[v].component != 0))
    && (forall v, w :: 0 <= v < w < |ns| && ns[v].dfn == ns[w].dfn ==> ns[v].dfn == 0)
  }

  ghost predicate GreyLive(g: Graph, ns: seq<SccNode>, grey: set<int>) {
    forall x :: x in grey ==> Live(g, ns, x)
  }

  ghost predicate NoBlackToWhite(g: Graph, ns: seq<SccNode>, grey: set<int>) {
    forall u, w :: Visited(ns, u) && u !in grey && Edge(g, u, w) ==> Visited(ns, w)
  }

  ghost predicate DownReach(g: Graph, ns: seq<SccNode>) {
    forall x, y {:trigger Reach(g, x, y)} ::
      Live(g, ns, x) && Live(g, ns, y) && ns[x].dfn <= ns[y].dfn ==> Reach(g, x, y)
  }

  ghost predicate Climbs(g: Graph, ns: seq<SccNode>, grey: set<int>, y: int) {
    exists x :: x in grey && 0 <= x < |ns| && 0 <= y < |ns| && ns[x].dfn <= ns[y].dfn && Reach(g, y, x)
  }

  ghost predicate UpReach(g: Graph, ns: seq<SccNode>, grey: set<int>) {
    forall y {:trigger Climbs(g, ns, grey, y)} :: Live(g, ns, y) ==> Climbs(g, ns, grey, y)
  }

  ghost predicate LowReached(g: Graph, ns: seq<SccNode>, y: int) {
    && 0 <= y < |ns| && ns[y].low <= ns[y].dfn
    && exists z :: Live(g, ns, z) && ns[z].dfn == ns[y].low && Reach(g, y, z)
  }

  ghost predicate LowOk(g: Graph, ns: seq<SccNode>) {
    forall y {:trigger LowReached(g, ns, y)} :: Live(g, ns, y) ==> LowReached(g, ns, y)
  }

  // An inner node that has got its component.
  predicate Numbered(g: Graph, ns: seq<SccNode>, v: int) {
    0 <= v < |g| && v < |ns| && !Leaf(g, v) && ns[v].component != 0
  }

  // The inner nodes numbered so far are complete components.
  ghost predicate Settled(g: Graph, ns: seq<SccNode>) {
    && (forall u, w :: Numbered(g, ns, u) && Edge(g, u, w) ==> 0 <= w < |ns| && ns[w].component != 0)
    && (forall u, w {:trigger Mutual(g, u, w)} :: Numbered(g, ns, u) && 0 <= w < |g| && w < |ns| && !Leaf(g, w) ==>
          (ns[w].component == ns[u].component <==> Mutual(g, u, w)))
  }

  /** Everything an update of single nodes can spoil about numbers and colours. */
  ghost predicate Colours(g: Graph, ns: seq<SccNode>, grey: set<int>, dfn: int, comp: int) {
    ClosedGraph(g) && Numbers(g, ns, dfn, comp) && GreyLive(g, ns, grey) && NoBlackToWhite(g, ns, grey)
  }

  ghost predicate Reaching(g: Graph, ns: seq<SccNode>, grey: set<int>) {
    DownReach(g, ns) && UpReach(g, ns, grey) && LowOk(g, ns)
  }

  ghost predicate Env(g: Graph, ns: seq<SccNode>, grey: set<int>, dfn: int, comp: int) {
    Colours(g, ns, grey, dfn, comp) && Reaching(g, ns, grey) && Settled(g, ns)
  }

  // ---------------------------------------------------------------- the steps of the search

  /** All nodes in progress lead to the node about to be visited. */
  ghost predicate Leads(g: Graph, grey: set<int>, v: int) {
    forall x :: x in grey ==> Reach(g, x, v)
  }

  lemma LiveLead(g: Graph, ns: seq<SccNode>, grey: set<int>, dfn: int, comp: int, v: int)
    requires Env(g, ns, grey, dfn, comp) && Leads(g, grey, v)
    ensures forall y :: Live(g, ns, y) ==> Reach(g, y, v)
  {
    forall y | Live(g, ns, y)
      ensures Reach(g, y, v)
    {
      assert Climbs(g, ns, grey, y);
      var x :| x in grey && ns[x].dfn <= ns[y].dfn && Reach(g, y, x);
      ReachTrans(g, y, x, v);
    }
  }

  lemma ClimbsStill(g: Graph, ns: seq<SccNode>, ns2: seq<SccNode>, grey: set<int>, grey2: set<int>, y: int)
    requires Climbs(g, ns, grey, y) && |ns2| == |ns| && grey <= grey2
    requires forall x :: x in grey + {y} && 0 <= x < |ns| ==> ns2[x].dfn == ns[x].dfn
    ensures Climbs(g, ns2, grey2, y)
  {
    var x :| x in grey && 0 <= x < |ns| && ns[x].dfn <= ns[y].dfn && Reach(g, y, x);
    assert ns2[x].dfn <= ns2[y].dfn;
  }

  lemma LowStill(g: Graph, ns: seq<SccNode>, ns2: seq<SccNode>, y: int, y2: int)
    requires LowReached(g, ns, y) && |ns2| == |ns| && 0 <= y2 < |ns| && ns2[y2].low == ns[y].low && Reach(g, y2, y)
    requires ns2[y2].low <= ns2[y2].dfn
    requires forall x :: Live(g, ns, x) && ns[x].dfn == ns[y].low ==> Live(g, ns2, x) && ns2[x].dfn == ns[x].dfn
    ensures LowReached(g, ns2, y2)
  {
    var z :| Live(g, ns, z) && ns[z].dfn == ns[y].low && Reach(g, y, z);
    ReachTrans(g, y2, y, z);
    assert Live(g, ns2, z);
  }

  lemma PushColours(g: Graph, ns: seq<SccNode>, grey: set<int>, dfn: int, comp: int, v: int, top: int)
    requires Colours(g, ns, grey, dfn, comp) && Settled(g, ns)
    requires 0 <= v < |g| && !Visited(ns, v) && !Leaf(g, v)
    ensures var ns2 := ns[v := SccNode(dfn, 0, dfn, top)];
            Colours(g, ns2, grey + {v}, dfn + 1, comp) && Settled(g, ns2)
  {
  }

  lemma PushReaching(g: Graph, ns: seq<SccNode>, grey: set<int>, dfn: int, v: int, top: int)
    requires |ns| == |g| && Reaching(g, ns, grey) && GreyLive(g, ns, grey)
    requires forall y :: Live(g, ns, y) ==> Reach(g, y, v) && ns[y].dfn < dfn
    requires 0 <= v < |g| && !Visited(ns, v) && !Leaf(g, v) && dfn > 0
    ensures Reaching(g, ns[v := SccNode(dfn, 0, dfn, top)], grey + {v})
  {
    var ns2 := ns[v := SccNode(dfn, 0, dfn, top)];
    ReachSelf(g, v);
    assert forall y :: Live(g, ns2, y) <==> Live(g, ns, y) || y == v;
    assert UpReach(g, ns2, grey + {v}) by {
      forall y {:trigger Climbs(g, ns2, grey + {v}, y)} | Live(g, ns2, y)
        ensures Climbs(g, ns2, grey + {v}, y)
      {
        if y != v {
          assert Climbs(g, ns, grey, y);
          ClimbsStill(g, ns, ns2, grey, grey + {v}, y);
        } else {
          assert v in grey + {v};
        }
      }
    }
    assert LowOk(g, ns2) by {
      forall y {:trigger LowReached(g, ns2, y)} | Live(g, ns2, y)
        ensures LowReached(g, ns2, y)
      {
        if y != v {
          assert LowReached(g, ns, y);
          ReachSelf(g, y);
          LowStill(g, ns, ns2, y, y);
        } else {
          assert ns2[v].dfn == ns2[v].low;
        }
      }
    }
  }

  lemma PushKeepsEnv(g: Graph, ns: seq<SccNode>, grey: set<int>, dfn: int, comp: int, v: int, top: int)
    requires Env(g, ns, grey, dfn, comp) && Leads(g, grey, v)
    requires 0 <= v < |g| && !Visited(ns, v) && !Leaf(g, v)
    ensures Env(g, ns[v := SccNode(dfn, 0, dfn, top)], grey + {v}, dfn + 1, comp)
  {
    LiveLead(g, ns, grey, dfn, comp, v);
    PushColours(g, ns, grey, dfn, comp, v, top);
    PushReaching(g, ns, grey, dfn, v, top);
  }

  lemma LeafColours(g: Graph, ns: seq<SccNode>, grey: set<int>, dfn: int, comp: int, v: int, top: int)
    requires Colours(g, ns, grey, dfn, comp) && Settled(g, ns)
    requires 0 <= v < |g| && !Visited(ns, v) && Leaf(g, v)
    ensures var ns2 := ns[v := SccNode(dfn, comp, dfn, top)];
            Colours(g, ns2, grey, dfn + 1, comp + 1) && Settled(g, ns2)
  {
  }

  /** A change of nodes that are not live leaves the live ones where they are. */
  lemma SameLive(g: Graph, ns: seq<SccNode>, grey: set<int>, ns2: seq<SccNode>)
    requires |ns| == |g| && |ns2| == |g| && Reaching(g, ns, grey) && GreyLive(g, ns, grey)
    requires forall y :: Live(g, ns2, y) <==> Live(g, ns, y)
    requires forall y :: Live(g, ns, y) ==> ns2[y] == ns[y]
    ensures Reaching(g, ns2, grey)
  {
    assert UpReach(g, ns2, grey) by {
      forall y {:trigger Climbs(g, ns2, grey, y)} | Live(g, ns2, y)
        ensures Climbs(g, ns2, grey, y)
      {
        assert Climbs(g, ns, grey, y);
        ClimbsStill(g, ns, ns2, grey, grey, y);
      }
    }
    assert LowOk(g, ns2) by {
      forall y {:trigger LowReached(g, ns2, y)} | Live(g, ns2, y)
        ensures LowReached(g, ns2, y)
      {
        assert LowReached(g, ns, y);
        ReachSelf(g, y);
        LowStill(g, ns, ns2, y, y);
      }
    }
  }

  lemma LeafKeepsEnv(g: Graph, ns: seq<SccNode>, grey: set<int>, dfn: int, comp: int, v: int, top: int)
    requires Env(g, ns, grey, dfn, comp)
    requires 0 <= v < |g| && !Visited(ns, v) && Leaf(g, v)
    ensures Env(g, ns[v := SccNode(dfn, comp, dfn, top)], grey, dfn + 1, comp + 1)
  {
    LeafColours(g, ns, grey, dfn, comp, v, top);
    SameLive(g, ns, grey, ns[v := SccNode(dfn, comp, dfn, top)]);
  }

  lemma LowerColours(g: Graph, ns: seq<SccNode>, grey: set<int>, dfn: int, comp: int, v: int, low: int)
    requires Colours(g, ns, grey, dfn, comp) && Settled(g, ns) && 0 <= v < |g|
    ensures var ns2 := ns[v := ns[v].(low := low)];
            Colours(g, ns2, grey, dfn, comp) && Settled(g, ns2)
  {
  }

  lemma LowerReaching(g: Graph, ns: seq<SccNode>, grey: set<int>, v: int, w: int)
    requires |ns| == |g| && Reaching(g, ns, grey) && GreyLive(g, ns, grey)
    requires Live(g, ns, v) && Live(g, ns, w) && Edge(g, v, w) && ns[w].low < ns[v].low
    ensures Reaching(g, ns[v := ns[v].(low := ns[w].low)], grey)
  {
    var ns2 := ns[v := ns[v].(low := ns[w].low)];
    assert forall y :: Live(g, ns2, y) <==> Live(g, ns, y);
    assert UpReach(g, ns2, grey) by {
      forall y {:trigger Climbs(g, ns2, grey, y)} | Live(g, ns2, y)
        ensures Climbs(g, ns2, grey, y)
      {
        assert Climbs(g, ns, grey, y);
        ClimbsStill(g, ns, ns2, grey, grey, y);
      }
    }
    assert LowOk(g, ns2) by {
      forall y {:trigger LowReached(g, ns2, y)} | Live(g, ns2, y)
        ensures LowReached(g, ns2, y)
      {
        assert LowReached(g, ns, y) && LowReached(g, ns, w);
        if y == v {
          ReachEdge(g, v, w);
          LowStill(g, ns, ns2, w, v);
        } else {
          ReachSelf(g, y);
          LowStill(g, ns, ns2, y, y);
        }
      }
    }
  }

  lemma LowerKeepsEnv(g: Graph, ns: seq<SccNode>, grey: set<int>, dfn: int, comp: int, v: int, w: int)
    requires Env(g, ns, grey, dfn, comp)
    requires Live(g, ns, v) && Live(g, ns, w) && Edge(g, v, w) && ns[w].low < ns[v].low
    ensures Env(g, ns[v := ns[v].(low := ns[w].low)], grey, dfn, comp)
  {
    LowerColours(g, ns, grey, dfn, comp, v, ns[w].low);
    LowerReaching(g, ns, grey, v, w);
  }

  // ---------------------------------------------------------------- popping a component

  // The inner nodes that are popped when `v` turns out to be the root of a component.
  ghost function Segment(g: Graph, ns: seq<SccNode>, v: int): set<int>
    requires 0 <= v < |ns|
  {
    set x | 0 <= x < |g| && Live(g, ns, x) && ns[v].dfn <= ns[x].dfn
  }

  ghost predicate IsRoot(g: Graph, ns: seq<SccNode>, grey: set<int>, v: int) {
    && v in grey && Live(g, ns, v) && ns[v].low == ns[v].dfn
    && (forall x :: x in grey && x != v ==> 0 <= x < |ns| && ns[x].dfn < ns[v].dfn)
    && (forall w :: Edge(g, v, w) ==> Visited(ns, w))
    && EdgesAbove(g, ns, ns[v].dfn, ns[v].low)
  }

  /** No edge from a live node numbered from `dfn` on leads to a live node numbered before that and below `low`. */
  ghost predicate EdgesAbove(g: Graph, ns: seq<SccNode>, dfn: int, low: int) {
    forall u, w :: Live(g, ns, u) && dfn <= ns[u].dfn && Edge(g, u, w) && Live(g, ns, w) && ns[w].dfn < dfn ==>
      low <= ns[w].dfn
  }

  lemma NoEscape(g: Graph, ns: seq<SccNode>, grey: set<int>, dfn: int, comp: int, v: int, u: int, w: int)
    requires Colours(g, ns, grey, dfn, comp) && IsRoot(g, ns, grey, v)
    requires u in Segment(g, ns, v) && w !in Segment(g, ns, v) && Edge(g, u, w)
    ensures 0 <= w < |ns| && ns[w].component != 0
  {
    assert Visited(ns, w);
  }

  lemma NumberedStuck(g: Graph, ns: seq<SccNode>, w: int, x: int)
    requires |ns| == |g| && Settled(g, ns) && 0 <= w < |ns| && ns[w].component != 0 && Reach(g, w, x)
    ensures 0 <= x < |ns| && ns[x].component != 0
  {
    var s := set z | 0 <= z < |ns| && ns[z].component != 0;
    forall a, b | a in s && Edge(g, a, b)
      ensures b in s
    {
      assert Numbered(g, ns, a);
    }
    StaysInside(g, w, x, s);
  }

  /** Whatever leads from the segment back to a live node stays in the segment. */
  lemma SegmentCloses(g: Graph, ns: seq<SccNode>, grey: set<int>, dfn: int, comp: int, v: int, y: int, x: int)
    requires Colours(g, ns, grey, dfn, comp) && Settled(g, ns) && IsRoot(g, ns, grey, v)
    requires y in Segment(g, ns, v) && Reach(g, y, x) && x !in Segment(g, ns, v)
    ensures !Reach(g, x, v) && !Live(g, ns, x)
  {
    var u, w := Crossing(g, y, x, Segment(g, ns, v));
    NoEscape(g, ns, grey, dfn, comp, v, u, w);
    NumberedStuck(g, ns, w, x);
    if Reach(g, x, v) { NumberedStuck(g, ns, x, v); }
  }

  lemma SegmentIsComponent(g: Graph, ns: seq<SccNode>, grey: set<int>, dfn: int, comp: int, v: int, y: int)
    requires Env(g, ns, grey, dfn, comp) && IsRoot(g, ns, grey, v)
    requires 0 <= y < |g|
    ensures y in Segment(g, ns, v) <==> Mutual(g, v, y)
  {
    if y in Segment(g, ns, v) {
      assert Reach(g, v, y);
      assert Climbs(g, ns, grey, y);
      var x :| x in grey && 0 <= x < |ns| && ns[x].dfn <= ns[y].dfn && Reach(g, y, x);
      if x != v { SegmentCloses(g, ns, grey, dfn, comp, v, y, x); }
    } else if Mutual(g, v, y) {
      SegmentCloses(g, ns, grey, dfn, comp, v, v, y);
    }
  }

  lemma MutualTrans(g: Graph, v: int, x: int, y: int)
    requires Mutual(g, v, x)
    ensures Mutual(g, v, y) <==> Mutual(g, x, y)
  {
    if Mutual(g, v, y) {
      ReachTrans(g, x, v, y);
      ReachTrans(g, y, v, x);
    }
    if Mutual(g, x, y) {
      ReachTrans(g, v, x, y);
      ReachTrans(g, y, x, v);
    }
  }

  /** `ns2` is `ns` after popping down to `v`: the segment, and some visited leaves, get component `comp`. */
  ghost predicate Popped(g: Graph, ns: seq<SccNode>, v: int, comp: int, ns2: seq<SccNode>)
    requires 0 <= v < |ns|
  {
    && |ns2| == |ns| == |g|
    && forall x :: 0 <= x < |ns| ==>
         if Leaf(g, x) then ns2[x] == ns[x] || (Visited(ns, x) && ns2[x] == ns[x].(component := comp))
         else ns2[x] == if x in Segment(g, ns, v) then ns[x].(component := comp) else ns[x]
  }

  lemma PopColours(g: Graph, ns: seq<SccNode>, grey: set<int>, dfn: int, comp: int, v: int, ns2: seq<SccNode>)
    requires Colours(g, ns, grey, dfn, comp) && IsRoot(g, ns, grey, v) && Popped(g, ns, v, comp, ns2)
    ensures Colours(g, ns2, grey - {v}, dfn, comp + 1)
  {
    assert forall x :: 0 <= x < |ns| ==> ns2[x].dfn == ns[x].dfn;
    assert forall x :: x in grey - {v} ==> x !in Segment(g, ns, v);
  }

  lemma PopSettled(g: Graph, ns: seq<SccNode>, grey: set<int>, dfn: int, comp: int, v: int, ns2: seq<SccNode>)
    requires Env(g, ns, grey, dfn, comp) && IsRoot(g, ns, grey, v) && Popped(g, ns, v, comp, ns2)
    ensures Settled(g, ns2)
  {
    forall u, w | Numbered(g, ns2, u) && Edge(g, u, w)
      ensures 0 <= w < |ns2| && ns2[w].component != 0
    {
      if u in Segment(g, ns, v) && w !in Segment(g, ns, v) { NoEscape(g, ns, grey, dfn, comp, v, u, w); }
    }
    forall u, w {:trigger Mutual(g, u, w)} | Numbered(g, ns2, u) && 0 <= w < |g| && !Leaf(g, w)
      ensures ns2[w].component == ns2[u].component <==> Mutual(g, u, w)
    {
      if u in Segment(g, ns, v) {
        SegmentIsComponent(g, ns, grey, dfn, comp, v, u);
        SegmentIsComponent(g, ns, grey, dfn, comp, v, w);
        MutualTrans(g, v, u, w);
      } else {
        assert Numbered(g, ns, u);
      }
    }
  }

  lemma PopReaching(g: Graph, ns: seq<SccNode>, grey: set<int>, dfn: int, comp: int, v: int, ns2: seq<SccNode>)
    requires Colours(g, ns, grey, dfn, comp) && Reaching(g, ns, grey)
    requires IsRoot(g, ns, grey, v) && Popped(g, ns, v, comp, ns2)
    ensures Reaching(g, ns2, grey - {v})
  {
    assert forall y :: Live(g, ns2, y) <==> Live(g, ns, y) && ns[y].dfn < ns[v].dfn;
    assert UpReach(g, ns2, grey - {v}) by {
      forall y {:trigger Climbs(g, ns2, grey - {v}, y)} | Live(g, ns2, y)
        ensures Climbs(g, ns2, grey - {v}, y)
      {
        assert Climbs(g, ns, grey, y);
        var x :| x in grey && 0 <= x < |ns| && ns[x].dfn <= ns[y].dfn && Reach(g, y, x);
        assert x in grey - {v} && ns2[x].dfn <= ns2[y].dfn;
      }
    }
    assert LowOk(g, ns2) by {
      forall y {:trigger LowReached(g, ns2, y)} | Live(g, ns2, y)
        ensures LowReached(g, ns2, y)
      {
        assert LowReached(g, ns, y);
        ReachSelf(g, y);
        LowStill(g, ns, ns2, y, y);
      }
    }
  }

  lemma PopKeepsEnv(g: Graph, ns: seq<SccNode>, grey: set<int>, dfn: int, comp: int, v: int, ns2: seq<SccNode>)
    requires Env(g, ns, grey, dfn, comp) && IsRoot(g, ns, grey, v) && Popped(g, ns, v, comp, ns2)
    ensures Env(g, ns2, grey - {v}, dfn, comp + 1)
  {
    PopColours(g, ns, grey, dfn, comp, v, ns2);
    PopSettled(g, ns, grey, dfn, comp, v, ns2);
    PopReaching(g, ns, grey, dfn, comp, v, ns2);
  }

  /** A node that is not a root turns black: what it reaches below it is still in progress. */
  lemma BlackenKeepsEnv(g: Graph, ns: seq<SccNode>, grey: set<int>, dfn: int, comp: int, v: int)
    requires Env(g, ns, grey, dfn, comp) && v in grey && ns[v].low < ns[v].dfn
    requires forall x :: x in grey && x != v ==> 0 <= x < |ns| && ns[x].dfn < ns[v].dfn
    requires forall w :: Edge(g, v, w) ==> Visited(ns, w)
    ensures Env(g, ns, grey - {v}, dfn, comp)
  {
    forall y {:trigger Climbs(g, ns, grey - {v}, y)} | Live(g, ns, y)
      ensures Climbs(g, ns, grey - {v}, y)
    {
      assert Climbs(g, ns, grey, y);
      var x :| x in grey && 0 <= x < |ns| && ns[x].dfn <= ns[y].dfn && Reach(g, y, x);
      if x == v {
        assert LowReached(g, ns, v);
        var z :| Live(g, ns, z) && ns[z].dfn == ns[v].low && Reach(g, v, z);
        assert Climbs(g, ns, grey, z);
        var x' :| x' in grey && 0 <= x' < |ns| && ns[x'].dfn <= ns[z].dfn && Reach(g, z, x');
        ReachTrans(g, y, v, z);
        ReachTrans(g, y, z, x');
        assert x' in grey - {v};
      } else {
        assert x in grey - {v};
      }
    }
    assert UpReach(g, ns, grey - {v});
  }

  // ---------------------------------------------------------------- the stack and the leaves on it

  predicate OnStack(ns: seq<SccNode>, st: seq<int>, x: int) {
    0 <= x < |ns| && 0 <= ns[x].stack < |st| && st[ns[x].stack] == x
  }

  ghost predicate StackOk(g: Graph, ns: seq<SccNode>, st: seq<int>)
    requires |ns| == |g|
  {
    && (forall k :: 0 <= k < |st| ==>
          && Visited(ns, st[k]) && ns[st[k]].stack == k
          && (!Leaf(g, st[k]) ==> Live(g, ns, st[k])))
    && (forall k, l :: 0 <= k < l < |st| ==> Visited(ns, st[k]) && Visited(ns, st[l]) && ns[st[k]].dfn < ns[st[l]].dfn)
    && (forall v :: Live(g, ns, v) ==> OnStack(ns, st, v))
  }

  // A listed node before `w` leads to it.
  ghost predicate ReachedEarlier(g: Graph, w: int) {
    exists j :: 0 <= j < w && Reach(g, j, w)
  }

  // Visited from the list: its number is its own.
  ghost predicate Alone(g: Graph, ns: seq<SccNode>, st: seq<int>, w: int)
    requires 0 <= w < |ns|
  {
    && OnStack(ns, st, w) && !ReachedEarlier(g, w)
    && (forall x :: 0 <= x < |ns| && x != w ==> ns[x].component != ns[w].component)
    && (forall u :: Live(g, ns, u) ==> ns[w].dfn < ns[u].dfn)
  }

  // Visited from the node `u`, which will take the leaf along when it is popped.
  ghost predicate HeldBy(g: Graph, ns: seq<SccNode>, grey: set<int>, w: int, u: int)
    requires 0 <= w < |ns|
  {
    && Live(g, ns, u) && Edge(g, u, w) && ns[u].dfn < ns[w].dfn
    && (forall x :: x in grey && 0 <= x < |ns| ==> ns[x].dfn <= ns[u].dfn || ns[w].dfn < ns[x].dfn)
  }

  ghost predicate Held(g: Graph, ns: seq<SccNode>, st: seq<int>, grey: set<int>, w: int)
    requires 0 <= w < |ns|
  {
    OnStack(ns, st, w) && ReachedEarlier(g, w) && exists u :: HeldBy(g, ns, grey, w, u)
  }

  ghost predicate MergedWith(g: Graph, ns: seq<SccNode>, w: int, u: int)
    requires 0 <= w < |ns|
  {
    Numbered(g, ns, u) && Edge(g, u, w) && ns[w].component == ns[u].component
  }

  ghost predicate Merged(g: Graph, ns: seq<SccNode>, st: seq<int>, w: int)
    requires 0 <= w < |ns|
  {
    !OnStack(ns, st, w) && ReachedEarlier(g, w) && exists u :: MergedWith(g, ns, w, u)
  }

  ghost predicate LeafOk(g: Graph, ns: seq<SccNode>, st: seq<int>, grey: set<int>, w: int)
    requires 0 <= w < |ns|
  {
    Alone(g, ns, st, w) || Held(g, ns, st, grey, w) || Merged(g, ns, st, w)
  }

  ghost predicate LeavesOk(g: Graph, ns: seq<SccNode>, st: seq<int>, grey: set<int>) {
    forall w :: 0 <= w < |g| && w < |ns| && Leaf(g, w) && Visited(ns, w) ==> LeafOk(g, ns, st, grey, w)
  }

  /** A change that does not touch the leaf `w` nor the nodes below it keeps its case. */
  lemma KeepLeaf(g: Graph, ns: seq<SccNode>, st: seq<int>, grey: set<int>, w: int,
                 ns2: seq<SccNode>, st2: seq<int>, grey2: set<int>)
    requires |ns| == |ns2| == |g| && 0 <= w < |g| && LeafOk(g, ns, st, grey, w)
    requires ns2[w] == ns[w] && (OnStack(ns, st, w) <==> OnStack(ns2, st2, w))
    requires OnStack(ns, st, w) ==>
               forall u :: Live(g, ns, u) && ns[u].dfn < ns[w].dfn ==> Live(g, ns2, u) && ns2[u].dfn == ns[u].dfn
    requires forall u :: Live(g, ns2, u) ==> (Live(g, ns, u) && ns2[u].dfn == ns[u].dfn) || ns[w].dfn < ns2[u].dfn
    requires forall u :: Numbered(g, ns, u) ==> ns2[u].component == ns[u].component
    requires forall x :: 0 <= x < |ns| && x != w ==>
               ns2[x].component == ns[x].component || ns2[x].component != ns[w].component
    requires forall x :: x in grey2 && 0 <= x < |ns| ==>
               (x in grey && ns2[x].dfn == ns[x].dfn) || ns[w].dfn < ns2[x].dfn
    ensures LeafOk(g, ns2, st2, grey2, w)
  {
    if Alone(g, ns, st, w) {
      assert Alone(g, ns2, st2, w);
    } else if Held(g, ns, st, grey, w) {
      var u :| HeldBy(g, ns, grey, w, u);
      assert HeldBy(g, ns2, grey2, w, u);
    } else {
      var u :| MergedWith(g, ns, w, u);
      assert MergedWith(g, ns2, w, u);
    }
  }

  lemma PushStack(g: Graph, ns: seq<SccNode>, st: seq<int>, v: int, rec: SccNode)
    requires |ns| == |g| && StackOk(g, ns, st) && 0 <= v < |g| && !Visited(ns, v)
    requires forall x :: 0 <= x < |ns| ==> ns[x].dfn < rec.dfn
    requires rec.dfn > 0 && rec.stack == |st| && (Leaf(g, v) <==> rec.component != 0)
    ensures StackOk(g, ns[v := rec], st + [v])
    ensures forall x :: 0 <= x < |ns| && x != v ==> (OnStack(ns, st, x) <==> OnStack(ns[v := rec], st + [v], x))
  {
    var ns2, st2 := ns[v := rec], st + [v];
    assert OnStack(ns2, st2, v);
    assert forall x :: Live(g, ns2, x) <==> Live(g, ns, x) || (x == v && !Leaf(g, v));
    assert forall k :: 0 <= k < |st| ==> st2[k] == st[k] && ns2[st[k]] == ns[st[k]];
  }

  lemma PushLeaves(g: Graph, ns: seq<SccNode>, st: seq<int>, grey: set<int>, dfn: int, comp: int, v: int, rec: SccNode)
    requires Colours(g, ns, grey, dfn, comp) && StackOk(g, ns, st) && LeavesOk(g, ns, st, grey)
    requires 0 <= v < |g| && !Visited(ns, v)
    requires rec == SccNode(dfn, if Leaf(g, v) then comp else 0, dfn, |st|)
    ensures forall w :: 0 <= w < |g| && Leaf(g, w) && Visited(ns, w) ==>
              LeafOk(g, ns[v := rec], st + [v], if Leaf(g, v) then grey else grey + {v}, w)
  {
    PushStack(g, ns, st, v, rec);
    forall w | 0 <= w < |g| && Leaf(g, w) && Visited(ns, w)
      ensures LeafOk(g, ns[v := rec], st + [v], if Leaf(g, v) then grey else grey + {v}, w)
    {
      KeepLeaf(g, ns, st, grey, w, ns[v := rec], st + [v], if Leaf(g, v) then grey else grey + {v});
    }
  }

  lemma NewLeaf(g: Graph, ns: seq<SccNode>, st: seq<int>, grey: set<int>, dfn: int, comp: int, v: int)
    requires Env(g, ns, grey, dfn, comp) && StackOk(g, ns, st)
    requires 0 <= v < |g| && !Visited(ns, v) && Leaf(g, v)
    requires if grey == {} then forall j :: 0 <= j < v ==> Visited(ns, j)
             else ReachedEarlier(g, v) && exists u :: u in grey && Edge(g, u, v) && TopGrey(ns, grey, u)
    ensures LeafOk(g, ns[v := SccNode(dfn, comp, dfn, |st|)], st + [v], grey, v)
  {
    var ns2 := ns[v := SccNode(dfn, comp, dfn, |st|)];
    if grey == {} {
      UnreachedFromVisited(g, ns, v);
      forall u
        ensures !Live(g, ns, u)
      {
        assert Live(g, ns, u) ==> Climbs(g, ns, grey, u);
      }
      assert forall u :: Live(g, ns2, u) ==> Live(g, ns, u);
      assert Alone(g, ns2, st + [v], v);
    } else {
      var u :| u in grey && Edge(g, u, v) && TopGrey(ns, grey, u);
      assert HeldBy(g, ns2, grey, v, u);
    }
  }

  ghost predicate TopGrey(ns: seq<SccNode>, grey: set<int>, u: int) {
    forall x :: x in grey ==> 0 <= x < |ns| && 0 <= u < |ns| && ns[x].dfn <= ns[u].dfn
  }

  lemma UnreachedFromVisited(g: Graph, ns: seq<SccNode>, v: int)
    requires |ns| == |g| && NoBlackToWhite(g, ns, {}) && !Visited(ns, v)
    requires forall j :: 0 <= j < v ==> Visited(ns, j)
    ensures !ReachedEarlier(g, v)
  {
    if j :| 0 <= j < v && Reach(g, j, v) {
      StaysInside(g, j, v, set x | 0 <= x < |ns| && Visited(ns, x));
    }
  }

  /** What the pop loop leaves behind: everything on the stack from `v` on has component `comp`. */
  ghost predicate StackPopped(ns: seq<SccNode>, st: seq<int>, v: int, comp: int, ns2: seq<SccNode>)
    requires OnStack(ns, st, v)
  {
    && |ns2| == |ns|
    && forall x :: 0 <= x < |ns| ==>
         ns2[x] == if OnStack(ns, st, x) && ns[v].stack <= ns[x].stack then ns[x].(component := comp) else ns[x]
  }

  lemma StackOrder(g: Graph, ns: seq<SccNode>, st: seq<int>, v: int, x: int)
    requires |ns| == |g| && StackOk(g, ns, st) && OnStack(ns, st, v) && OnStack(ns, st, x)
    ensures ns[v].stack <= ns[x].stack <==> ns[v].dfn <= ns[x].dfn
  {
  }

  lemma StackPoppedIsPopped(g: Graph, ns: seq<SccNode>, st: seq<int>, v: int, comp: int, ns2: seq<SccNode>)
    requires |ns| == |g| && StackOk(g, ns, st) && Live(g, ns, v) && StackPopped(ns, st, v, comp, ns2)
    ensures Popped(g, ns, v, comp, ns2)
  {
    forall x | 0 <= x < |ns| && !Leaf(g, x)
      ensures x in Segment(g, ns, v) <==> OnStack(ns, st, x) && ns[v].stack <= ns[x].stack
    {
      if OnStack(ns, st, x) { StackOrder(g, ns, st, v, x); }
    }
  }

  lemma PopStack(g: Graph, ns: seq<SccNode>, st: seq<int>, v: int, comp: int, ns2: seq<SccNode>)
    requires |ns| == |g| && StackOk(g, ns, st) && Live(g, ns, v) && StackPopped(ns, st, v, comp, ns2)
    requires comp != 0
    ensures StackOk(g, ns2, st[..ns[v].stack])
    ensures forall x :: 0 <= x < |ns| ==>
              (OnStack(ns2, st[..ns[v].stack], x) <==> OnStack(ns, st, x) && ns[x].dfn < ns[v].dfn)
  {
    var st2 := st[..ns[v].stack];
    forall x | 0 <= x < |ns|
      ensures OnStack(ns2, st2, x) <==> OnStack(ns, st, x) && ns[x].dfn < ns[v].dfn
    {
      if OnStack(ns, st, x) { StackOrder(g, ns, st, v, x); }
    }
    assert forall k :: 0 <= k < |st2| ==> st2[k] == st[k] && ns2[st[k]] == ns[st[k]];
  }

  lemma PopLeaves(g: Graph, ns: seq<SccNode>, st: seq<int>, grey: set<int>, dfn: int, comp: int, v: int,
                  ns2: seq<SccNode>)
    requires Colours(g, ns, grey, dfn, comp) && StackOk(g, ns, st) && LeavesOk(g, ns, st, grey)
    requires v in grey && StackPopped(ns, st, v, comp, ns2)
    ensures StackOk(g, ns2, st[..ns[v].stack]) && LeavesOk(g, ns2, st[..ns[v].stack], grey - {v})
  {
    hide LeafOk;
    var st2 := st[..ns[v].stack];
    StackPoppedIsPopped(g, ns, st, v, comp, ns2);
    PopStack(g, ns, st, v, comp, ns2);
    forall w | 0 <= w < |g| && Leaf(g, w) && Visited(ns2, w)
      ensures LeafOk(g, ns2, st2, grey - {v}, w)
    {
      assert LeafOk(g, ns, st, grey, w);
      if OnStack(ns, st, w) { StackOrder(g, ns, st, v, w); }
      if OnStack(ns, st, w) && ns[v].dfn <= ns[w].dfn {
        PoppedLeaf(g, ns, st, grey, v, comp, ns2, w);
      } else {
        KeepLeaf(g, ns, st, grey, w, ns2, st2, grey - {v});
      }
    }
  }

  lemma PoppedLeaf(g: Graph, ns: seq<SccNode>, st: seq<int>, grey: set<int>, v: int, comp: int, ns2: seq<SccNode>,
                   w: int)
    requires |ns| == |g| && StackOk(g, ns, st) && Live(g, ns, v) && v in grey
    requires StackPopped(ns, st, v, comp, ns2) && Popped(g, ns, v, comp, ns2) && comp != 0
    requires 0 <= w < |g| && Leaf(g, w) && LeafOk(g, ns, st, grey, w)
    requires OnStack(ns, st, w) && ns[v].dfn <= ns[w].dfn && !OnStack(ns2, st[..ns[v].stack], w)
    ensures LeafOk(g, ns2, st[..ns[v].stack], grey - {v}, w)
  {
    StackOrder(g, ns, st, v, w);
    assert Held(g, ns, st, grey, w);
    var u :| HeldBy(g, ns, grey, w, u);
    assert u in Segment(g, ns, v);
    assert MergedWith(g, ns2, w, u);
  }

  lemma SameStack(g: Graph, ns: seq<SccNode>, ns2: seq<SccNode>, st: seq<int>)
    requires |ns| == |ns2| == |g| && StackOk(g, ns, st)
    requires forall x :: 0 <= x < |ns| ==> ns2[x] == ns[x].(low := ns2[x].low)
    ensures StackOk(g, ns2, st)
    ensures forall x :: OnStack(ns, st, x) <==> OnStack(ns2, st, x)
  {
    assert forall x :: Live(g, ns2, x) <==> Live(g, ns, x);
    assert forall x :: Visited(ns2, x) <==> Visited(ns, x);
  }

  lemma SameLeaves(g: Graph, ns: seq<SccNode>, ns2: seq<SccNode>, st: seq<int>, grey: set<int>, grey2: set<int>)
    requires |ns| == |ns2| == |g| && StackOk(g, ns, st) && LeavesOk(g, ns, st, grey) && grey2 <= grey
    requires forall x :: 0 <= x < |ns| ==> ns2[x] == ns[x].(low := ns2[x].low)
    requires forall x :: 0 <= x < |ns| && Leaf(g, x) ==> ns2[x] == ns[x]
    ensures StackOk(g, ns2, st) && LeavesOk(g, ns2, st, grey2)
  {
    SameStack(g, ns, ns2, st);
    forall w | 0 <= w < |g| && Leaf(g, w) && Visited(ns2, w)
      ensures LeafOk(g, ns2, st, grey2, w)
    {
      assert LeafOk(g, ns, st, grey, w);
      KeepLeaf(g, ns, st, grey, w, ns2, st, grey2);
    }
  }

  // ---------------------------------------------------------------- the search

  ghost function NumVisited(ns: seq<SccNode>): nat {
    if ns == [] then 0 else NumVisited(ns[..|ns| - 1]) + if ns[|ns| - 1].dfn != 0 then 1 else 0
  }

  lemma {:induction false} NumVisitedBound(ns: seq<SccNode>)
    ensures NumVisited(ns) <= |ns|
    ensures forall v :: 0 <= v < |ns| && ns[v].dfn == 0 ==> NumVisited(ns) < |ns|
  {
    if ns != [] {
      var rest := ns[..|ns| - 1];
      NumVisitedBound(rest);
      assert forall v :: 0 <= v < |rest| ==> ns[v] == rest[v];
    }
  }

  lemma {:induction false} NumVisitedUpdate(ns: seq<SccNode>, ns2: seq<SccNode>, v: int)
    requires |ns2| == |ns| && forall x :: 0 <= x < |ns| && x != v ==> (ns2[x].dfn != 0 <==> ns[x].dfn != 0)
    requires 0 <= v < |ns| ==> ns[v].dfn == 0 && ns2[v].dfn != 0
    ensures NumVisited(ns2) == NumVisited(ns) + if 0 <= v < |ns| then 1 else 0
  {
    if ns != [] {
      NumVisitedUpdate(ns[..|ns| - 1], ns2[..|ns| - 1], v);
    }
  }

  /** The edges of `v` examined so far, and all edges of the nodes found below it, respect its `low`. */
  ghost predicate InProgress(g: Graph, ns: seq<SccNode>, v: int, dfn: int, j: int) {
    && Live(g, ns, v) && ns[v].dfn == dfn && 0 <= j <= |g[v]|
    && (forall k :: 0 <= k < j ==> Visited(ns, g[v][k]))
    && (forall u, w ::
          Live(g, ns, u) && dfn <= ns[u].dfn && Edge(g, u, w) && (u == v ==> w in g[v][..j]) && Live(g, ns, w) &&
          ns[w].dfn < dfn ==>
            ns[v].low <= ns[w].dfn)
  }

  /** What a finished visit of `v`, numbered `dfn`, leaves on the stack. */
  ghost predicate Finished(g: Graph, ns: seq<SccNode>, v: int, dfn: int) {
    && Visited(ns, v) && ns[v].dfn == dfn
    && if Live(g, ns, v) then ns[v].low < dfn && EdgesAbove(g, ns, dfn, ns[v].low)
       else ns[v].low == dfn && forall x :: Live(g, ns, x) ==> ns[x].dfn < dfn
  }

  ghost predicate Kept(ns: seq<SccNode>, ns2: seq<SccNode>) {
    |ns2| == |ns| && forall x :: Visited(ns, x) ==> ns2[x] == ns[x]
  }

  /** Where a visit may start: `root` is the listed node from which the search set out. */
  ghost predicate MayVisit(g: Graph, ns: seq<SccNode>, grey: set<int>, root: int, v: int) {
    && |ns| == |g| && 0 <= v < |g| && 0 <= root < |g| && !Visited(ns, v)
    && (forall k :: 0 <= k < root ==> Visited(ns, k))
    && Leads(g, grey, v)
    && if grey == {} then v == root
       else Visited(ns, root) && Reach(g, root, v) && exists u :: u in grey && Edge(g, u, v) && TopGrey(ns, grey, u)
  }

  lemma MayVisitChild(g: Graph, ns: seq<SccNode>, grey: set<int>, root: int, v: int, ns2: seq<SccNode>, w: int)
    requires MayVisit(g, ns, grey, root, v) && ClosedGraph(g)
    requires Visited(ns2, v) && Kept(ns, ns2) && !Visited(ns2, w) && Edge(g, v, w)
    requires forall x :: x in grey ==> Visited(ns, x) && ns[x].dfn < ns2[v].dfn
    ensures MayVisit(g, ns2, grey + {v}, root, w)
  {
    ReachEdge(g, v, w);
    if grey == {} { ReachSelf(g, v); }
    ReachTrans(g, root, v, w);
    forall x | x in grey + {v}
      ensures Reach(g, x, w)
    {
      if x != v { ReachTrans(g, x, v, w); }
    }
    assert TopGrey(ns2, grey + {v}, v);
  }

  lemma ChildFinished(g: Graph, ns: seq<SccNode>, ns2: seq<SccNode>, v: int, dfn: int, j: int, dfn2: int)
    requires |ns| == |g| && InProgress(g, ns, v, dfn, j) && j < |g[v]| && dfn < dfn2
    requires forall x :: 0 <= x < |ns| ==> ns[x].dfn < dfn2
    requires Kept(ns, ns2) && Finished(g, ns2, g[v][j], dfn2)
    requires forall x :: Visited(ns2, x) && !Visited(ns, x) ==> dfn2 <= ns2[x].dfn
    requires ns[v].low <= dfn
    ensures ns2[g[v][j]].low < ns2[v].low ==> Live(g, ns2, g[v][j])
    ensures var low := if ns2[g[v][j]].low < ns2[v].low then ns2[g[v][j]].low else ns2[v].low;
            InProgress(g, ns2[v := ns2[v].(low := low)], v, dfn, j + 1)
  {
    var c := g[v][j];
    var low := if ns2[c].low < ns2[v].low then ns2[c].low else ns2[v].low;
    var ns3 := ns2[v := ns2[v].(low := low)];
    assert forall x :: Live(g, ns3, x) <==> Live(g, ns2, x);
    assert g[v][..j + 1] == g[v][..j] + [c];
    forall u, w | Live(g, ns3, u) && dfn <= ns3[u].dfn && Edge(g, u, w) && (u == v ==> w in g[v][..j + 1])
                  && Live(g, ns3, w) && ns3[w].dfn < dfn
      ensures low <= ns3[w].dfn
    {
      assert Live(g, ns, w);
      if Visited(ns, u) {
        assert Live(g, ns, u);
        if u == v { assert w != c; }
      } else {
        assert Live(g, ns2, c);
      }
    }
  }

  lemma EdgeExamined(g: Graph, ns: seq<SccNode>, v: int, dfn: int, j: int)
    requires |ns| == |g| && InProgress(g, ns, v, dfn, j) && j < |g[v]| && Visited(ns, g[v][j])
    requires Live(g, ns, g[v][j]) ==> ns[g[v][j]].low <= ns[g[v][j]].dfn
    ensures var w := g[v][j];
            var low := if ns[w].dfn < ns[v].dfn && Live(g, ns, w) && ns[w].low < ns[v].low then ns[w].low
                else ns[v].low;
            InProgress(g, ns[v := ns[v].(low := low)], v, dfn, j + 1)
  {
    var c := g[v][j];
    var low := if ns[c].dfn < ns[v].dfn && Live(g, ns, c) && ns[c].low < ns[v].low then ns[c].low else ns[v].low;
    var ns3 := ns[v := ns[v].(low := low)];
    assert forall x :: Live(g, ns3, x) <==> Live(g, ns, x);
    assert g[v][..j + 1] == g[v][..j] + [c];
  }

  /** Everything the search keeps true of its data, `st` being the used part of the stack. */
  ghost predicate SearchInv(g: Graph, ns: seq<SccNode>, st: seq<int>, grey: set<int>, dfn: int, comp: int) {
    && Env(g, ns, grey, dfn, comp)
    && StackOk(g, ns, st)
    && LeavesOk(g, ns, st, grey)
    && |st| < dfn == 1 + NumVisited(ns)
  }

  function Numbering(g: Graph, v: int, dfn: int, comp: int, top: int): SccNode
    requires 0 <= v < |g|
  {
    SccNode(dfn, if Leaf(g, v) then comp else 0, dfn, top)
  }

  lemma EnterKeepsEnv(g: Graph, ns: seq<SccNode>, grey: set<int>, dfn: int, comp: int, root: int, v: int, top: int)
    requires Env(g, ns, grey, dfn, comp) && MayVisit(g, ns, grey, root, v)
    ensures var ns2 := ns[v := Numbering(g, v, dfn, comp, top)];
            if Leaf(g, v) then Env(g, ns2, grey, dfn + 1, comp + 1) else Env(g, ns2, grey + {v}, dfn + 1, comp)
  {
    hide Env, Visited, Leads;
    if Leaf(g, v) {
      LeafKeepsEnv(g, ns, grey, dfn, comp, v, top);
    } else {
      PushKeepsEnv(g, ns, grey, dfn, comp, v, top);
    }
  }

  lemma EnterKeepsLeaves(g: Graph, ns: seq<SccNode>, st: seq<int>, grey: set<int>, dfn: int, comp: int, root: int,
                         v: int)
    requires Env(g, ns, grey, dfn, comp) && StackOk(g, ns, st) && LeavesOk(g, ns, st, grey)
    requires MayVisit(g, ns, grey, root, v)
    ensures var ns2 := ns[v := Numbering(g, v, dfn, comp, |st|)];
            LeavesOk(g, ns2, st + [v], if Leaf(g, v) then grey else grey + {v})
  {
    hide Colours, Reaching, Settled, StackOk, LeafOk, Leads;
    var rec := Numbering(g, v, dfn, comp, |st|);
    PushLeaves(g, ns, st, grey, dfn, comp, v, rec);
    if Leaf(g, v) {
      if grey != {} { assert ReachedEarlier(g, v); }
      NewLeaf(g, ns, st, grey, dfn, comp, v);
    }
  }

  lemma EnterKeepsInv(g: Graph, ns: seq<SccNode>, st: seq<int>, grey: set<int>, dfn: int, comp: int, root: int, v: int)
    requires SearchInv(g, ns, st, grey, dfn, comp) && MayVisit(g, ns, grey, root, v)
    ensures |st| < |g|
    ensures var ns2 := ns[v := Numbering(g, v, dfn, comp, |st|)];
            if Leaf(g, v) then SearchInv(g, ns2, st + [v], grey, dfn + 1, comp + 1)
            else SearchInv(g, ns2, st + [v], grey + {v}, dfn + 1, comp)
  {
    hide Env, StackOk, LeavesOk, MayVisit;
    VisitFacts(g, ns, st, grey, dfn, comp, root, v);
    var rec := Numbering(g, v, dfn, comp, |st|);
    PushStack(g, ns, st, v, rec);
    EnterKeepsEnv(g, ns, grey, dfn, comp, root, v, |st|);
    EnterKeepsLeaves(g, ns, st, grey, dfn, comp, root, v);
    NumVisitedUpdate(ns, ns[v := rec], v);
  }

  lemma PopKeepsInv(g: Graph, ns: seq<SccNode>, st: seq<int>, grey: set<int>, dfn: int, comp: int, v: int,
                    ns2: seq<SccNode>)
    requires SearchInv(g, ns, st, grey, dfn, comp) && IsRoot(g, ns, grey, v)
    requires StackPopped(ns, st, v, comp, ns2)
    ensures SearchInv(g, ns2, st[..ns[v].stack], grey - {v}, dfn, comp + 1)
  {
    StackPoppedIsPopped(g, ns, st, v, comp, ns2);
    PopKeepsEnv(g, ns, grey, dfn, comp, v, ns2);
    PopLeaves(g, ns, st, grey, dfn, comp, v, ns2);
    NumVisitedUpdate(ns, ns2, -1);
  }

  /** `ns2` comes after `ns`: visited nodes keep everything, new ones are numbered from `dfn` on. */
  ghost predicate After(ns: seq<SccNode>, dfn: int, ns2: seq<SccNode>) {
    && Kept(ns, ns2)
    && forall x :: Visited(ns2, x) && !Visited(ns, x) ==> dfn <= ns2[x].dfn
  }

  lemma EnterFits(g: Graph, ns: seq<SccNode>, st: seq<int>, grey: set<int>, dfn: int, comp: int, root: int, v: int)
    requires SearchInv(g, ns, st, grey, dfn, comp) && MayVisit(g, ns, grey, root, v)
    ensures 0 <= v < |g| == |ns| && !Visited(ns, v) && ns[v].component == 0
  {
  }

  lemma AfterTrans(ns0: seq<SccNode>, dfn0: int, ns: seq<SccNode>, dfn: int, ns2: seq<SccNode>, v: int, low: int)
    requires After(ns0, dfn0, ns) && After(ns, dfn, ns2) && dfn0 <= dfn
    requires 0 <= v < |ns0| && !Visited(ns0, v)
    ensures After(ns0, dfn0, ns2[v := ns2[v].(low := low)])
  {
  }

  lemma VisitFacts(g: Graph, ns: seq<SccNode>, st: seq<int>, grey: set<int>, dfn: int, comp: int, root: int, v: int)
    requires SearchInv(g, ns, st, grey, dfn, comp) && MayVisit(g, ns, grey, root, v)
    ensures 0 <= v < |g| && !Visited(ns, v)
    ensures forall x :: x in grey ==> Visited(ns, x) && ns[x].dfn < dfn
    ensures forall x :: 0 <= x < |ns| ==> ns[x].dfn < dfn
    ensures 0 < dfn <= |g| && |ns| == |g| && 0 < comp
  {
    NumVisitedBound(ns);
  }

  lemma EnterFacts(g: Graph, ns: seq<SccNode>, ns2: seq<SccNode>, v: int, dfn: int, comp: int)
    requires |ns| == |g| && 0 <= v < |g| && !Visited(ns, v) && dfn > 0
    requires forall x :: 0 <= x < |ns| ==> ns[x].dfn < dfn
    requires |ns2| == |ns| && ns2 == ns[v := ns2[v]]
    requires ns2[v].dfn == dfn && ns2[v].low == dfn && (ns2[v].component == 0 <==> !Leaf(g, v))
    ensures After(ns, dfn, ns2)
    ensures if Leaf(g, v) then Finished(g, ns2, v, dfn) else InProgress(g, ns2, v, dfn, 0)
  {
    assert forall x :: Live(g, ns2, x) ==> x == v || Live(g, ns, x);
  }

  lemma EdgeFacts(g: Graph, ns: seq<SccNode>, st: seq<int>, grey: set<int>, dfn: int, comp: int,
                  v: int, dfn0: int, j: int)
    requires SearchInv(g, ns, st, grey, dfn, comp) && 0 <= v < |g| && 0 <= j < |g[v]| && InProgress(g, ns, v, dfn0, j)
    ensures ns[v].dfn == dfn0 && Live(g, ns, v)
    ensures ClosedGraph(g) && |ns| == |g| && 0 <= g[v][j] < |g| && Edge(g, v, g[v][j])
    ensures forall x :: 0 <= x < |ns| ==> 0 <= ns[x].dfn < dfn
    ensures ns[v].low <= ns[v].dfn
    ensures Live(g, ns, g[v][j]) ==> ns[g[v][j]].low <= ns[g[v][j]].dfn
    ensures Visited(ns, g[v][j]) && ns[g[v][j]].component == 0 ==> Live(g, ns, g[v][j])
  {
    assert LowReached(g, ns, v);
    if Live(g, ns, g[v][j]) { assert LowReached(g, ns, g[v][j]); }
  }

  lemma RootFacts(g: Graph, ns0: seq<SccNode>, ns: seq<SccNode>, st: seq<int>, grey: set<int>, dfn2: int, comp: int,
                  v: int, dfn: int)
    requires SearchInv(g, ns, st, grey + {v}, dfn2, comp) && 0 <= v < |g| && InProgress(g, ns, v, dfn, |g[v]|) &&
             After(ns0, dfn, ns)
    requires forall x :: x in grey ==> Visited(ns0, x) && ns0[x].dfn < dfn
    ensures |ns| == |g| && ns[v].dfn == dfn && ns[v].low <= dfn
    ensures forall x :: x in grey + {v} && x != v ==> 0 <= x < |ns| && ns[x].dfn < ns[v].dfn
    ensures forall w :: Edge(g, v, w) ==> Visited(ns, w)
    ensures EdgesAbove(g, ns, dfn, ns[v].low)
    ensures ns[v].low == ns[v].dfn ==> IsRoot(g, ns, grey + {v}, v)
    ensures ns[v].low != ns[v].dfn ==> Finished(g, ns, v, dfn)
  {
    assert g[v][..|g[v]|] == g[v];
    assert LowReached(g, ns, v);
  }

  lemma PopFacts(g: Graph, ns0: seq<SccNode>, ns: seq<SccNode>, st: seq<int>, grey: set<int>, dfn2: int, comp: int,
                 v: int, dfn: int, ns2: seq<SccNode>)
    requires SearchInv(g, ns, st, grey, dfn2, comp) && IsRoot(g, ns, grey, v) && ns[v].dfn == dfn
    requires forall x :: Visited(ns0, x) ==> ns0[x].dfn < dfn
    requires After(ns0, dfn, ns) && StackPopped(ns, st, v, comp, ns2)
    ensures After(ns0, dfn, ns2) && Finished(g, ns2, v, dfn)
  {
    StackPoppedIsPopped(g, ns, st, v, comp, ns2);
    forall x | Visited(ns0, x)
      ensures ns2[x] == ns0[x]
    {
      if OnStack(ns, st, x) { StackOrder(g, ns, st, v, x); }
    }
    assert forall x :: Live(g, ns2, x) ==> Live(g, ns, x) && x !in Segment(g, ns, v);
  }

  lemma RootOnStack(g: Graph, ns: seq<SccNode>, st: seq<int>, v: int)
    requires |ns| == |g| && StackOk(g, ns, st) && Live(g, ns, v)
    ensures OnStack(ns, st, v)
  {
  }

  lemma LowerKeepsInv(g: Graph, ns: seq<SccNode>, st: seq<int>, grey: set<int>, dfn: int, comp: int, v: int, w: int)
    requires SearchInv(g, ns, st, grey, dfn, comp)
    requires Live(g, ns, v) && Live(g, ns, w) && Edge(g, v, w) && ns[w].low < ns[v].low
    ensures SearchInv(g, ns[v := ns[v].(low := ns[w].low)], st, grey, dfn, comp)
  {
    var ns2 := ns[v := ns[v].(low := ns[w].low)];
    LowerKeepsEnv(g, ns, grey, dfn, comp, v, w);
    SameLeaves(g, ns, ns2, st, grey, grey);
    NumVisitedUpdate(ns, ns2, -1);
  }

  lemma BlackenKeepsInv(g: Graph, ns: seq<SccNode>, st: seq<int>, grey: set<int>, dfn: int, comp: int, v: int)
    requires SearchInv(g, ns, st, grey, dfn, comp) && v in grey && ns[v].low < ns[v].dfn
    requires forall x :: x in grey && x != v ==> 0 <= x < |ns| && ns[x].dfn < ns[v].dfn
    requires forall w :: Edge(g, v, w) ==> Visited(ns, w)
    ensures SearchInv(g, ns, st, grey - {v}, dfn, comp)
  {
    BlackenKeepsEnv(g, ns, grey, dfn, comp, v);
    SameLeaves(g, ns, ns, st, grey, grey - {v});
  }

  lemma {:induction false} NoneVisited(ns: seq<SccNode>)
    requires forall v :: 0 <= v < |ns| ==> ns[v].dfn == 0
    ensures NumVisited(ns) == 0
  {
    if ns != [] { NoneVisited(ns[..|ns| - 1]); }
  }

  class SccSearch {
    const succ: Graph
    const nodes: array<SccNode>
    const dfnStack: array<int>
    var dfnTop: int
    var dfn: int
    var component: int

    ghost predicate Valid(grey: set<int>)
      reads this, nodes, dfnStack
    {
      && nodes.Length == |succ| == dfnStack.Length
      && 0 <= dfnTop <= |succ|
      && SearchInv(succ, nodes[..], dfnStack[..dfnTop], grey, dfn, component)
    }

    constructor (succ: Graph)
      requires ClosedGraph(succ)
      ensures this.succ == succ && Valid({}) && forall v :: 0 <= v < nodes.Length ==> nodes[v].dfn == 0
      ensures fresh(nodes) && fresh(dfnStack)
    {
      this.succ := succ;
      nodes := new SccNode[|succ|](_ => SccNode(0, 0, 0, 0));
      dfnStack := new int[|succ|](_ => 0);
      dfnTop, dfn, component := 0, 1, 1;
      new;
      NoneVisited(nodes[..]);
    }

    /** Numbers node `v` and pushes it; a node without out-edges gets its component at once. */
    method Enter(v: int, ghost grey: set<int>, ghost root: int)
      requires Valid(grey) && MayVisit(succ, nodes[..], grey, root, v)
      modifies this, nodes, dfnStack
      ensures Valid(if Leaf(succ, v) then grey else grey + {v})
      ensures nodes[..] == old(nodes[..])[v := Numbering(succ, v, old(dfn), old(component), old(dfnTop))]
      ensures dfn == old(dfn) + 1
    {
      hide SearchInv, MayVisit;
      ghost var ns, st := nodes[..], dfnStack[..dfnTop];
      EnterFits(succ, ns, st, grey, dfn, component, root, v);
      EnterKeepsInv(succ, ns, st, grey, dfn, component, root, v);
      ghost var rec := Numbering(succ, v, dfn, component, dfnTop);
      nodes[v] := nodes[v].(dfn := dfn, low := dfn);
      dfnStack[dfnTop] := v;
      nodes[v] := nodes[v].(stack := dfnTop);
      if |succ[v]| == 0 {
        nodes[v] := nodes[v].(component := component);
        component := component + 1;
      }
      dfn, dfnTop := dfn + 1, dfnTop + 1;
      assert nodes[..] == ns[v := rec];
      assert dfnStack[..dfnTop] == st + [v];
    }

    /** The pop loop: gives everything on the stack from `v` on the current component. */
    method NumberFrom(v: int)
      requires nodes.Length == |succ| && 0 <= dfnTop <= dfnStack.Length
      requires StackOk(succ, nodes[..], dfnStack[..dfnTop]) && OnStack(nodes[..], dfnStack[..dfnTop], v)
      modifies nodes
      ensures StackPopped(old(nodes[..]), old(dfnStack[..dfnTop]), v, component, nodes[..])
    {
      ghost var ns, st := nodes[..], dfnStack[..dfnTop];
      var bottom := nodes[v].stack;
      var j := dfnTop - 1;
      while j >= bottom
        invariant bottom - 1 <= j < dfnTop
        invariant forall x :: 0 <= x < |ns| ==>
                    nodes[x] == if OnStack(ns, st, x) && j < ns[x].stack then ns[x].(component := component) else ns[x]
      {
        assert OnStack(ns, st, st[j]);
        nodes[dfnStack[j]] := nodes[dfnStack[j]].(component := component);
        j := j - 1;
      }
    }

    /** Pops the component whose root is `v`. */
    method PopComponent(v: int, ghost grey: set<int>)
      requires Valid(grey) && IsRoot(succ, nodes[..], grey, v)
      modifies this, nodes
      ensures Valid(grey - {v}) && dfn == old(dfn)
      ensures StackPopped(old(nodes[..]), old(dfnStack[..dfnTop]), v, old(component), nodes[..])
    {
      ghost var ns, st := nodes[..], dfnStack[..dfnTop];
      var bottom := nodes[v].stack;
      RootOnStack(succ, ns, st, v);
      NumberFrom(v);
      PopKeepsInv(succ, ns, st, grey, dfn, component, v, nodes[..]);
      component := component + 1;
      dfnTop := bottom;
      assert dfnStack[..dfnTop] == st[..bottom];
    }

    method Lower(v: int, w: int, ghost grey: set<int>)
      requires Valid(grey) && Live(succ, nodes[..], v) && Live(succ, nodes[..], w) && Edge(succ, v, w)
      requires nodes[w].low < nodes[v].low
      modifies nodes
      ensures Valid(grey) && nodes[..] == old(nodes[..])[v := old(nodes[v]).(low := old(nodes[w].low))]
    {
      LowerKeepsInv(succ, nodes[..], dfnStack[..dfnTop], grey, dfn, component, v, w);
      ghost var ns := nodes[..];
      nodes[v] := nodes[v].(low := nodes[w].low);
      assert nodes[..] == ns[v := ns[v].(low := ns[w].low)];
    }

    /** xsb_compute_scc: visits node `v` and everything it leads to.  `grey` holds the nodes in progress. */
    method Visit(v: int, ghost grey: set<int>, ghost root: int)
      requires Valid(grey) && MayVisit(succ, nodes[..], grey, root, v)
      modifies this, nodes, dfnStack
      ensures Valid(grey) && old(dfn) < dfn
      ensures After(old(nodes[..]), old(dfn), nodes[..]) && Finished(succ, nodes[..], v, old(dfn))
      decreases |succ| + 1 - dfn, 0
    {
      hide SearchInv, StackOk, InProgress, Finished, MayVisit;
      ghost var ns0, dfn0, comp0 := nodes[..], dfn, component;
      VisitFacts(succ, ns0, dfnStack[..dfnTop], grey, dfn, component, root, v);
      Enter(v, grey, root);
      EnterFacts(succ, ns0, nodes[..], v, dfn0, comp0);
      if |succ[v]| > 0 {
        var j := 0;
        while j < |succ[v]|
          invariant 0 <= j <= |succ[v]|
          invariant Valid(grey + {v}) && dfn0 < dfn
          invariant After(ns0, dfn0, nodes[..]) && InProgress(succ, nodes[..], v, dfn0, j)
        {
          VisitEdge(v, j, grey, root, ns0, dfn0);
          j := j + 1;
        }
        RootFacts(succ, ns0, nodes[..], dfnStack[..dfnTop], grey, dfn, component, v, dfn0);
        if nodes[v].low == nodes[v].dfn {
          ghost var ns, st := nodes[..], dfnStack[..dfnTop];
          ghost var dfn2, comp := dfn, component;
          PopComponent(v, grey + {v});
          PopFacts(succ, ns0, ns, st, grey + {v}, dfn2, comp, v, dfn0, nodes[..]);
        } else {
          BlackenKeepsInv(succ, nodes[..], dfnStack[..dfnTop], grey + {v}, dfn, component, v);
        }
        assert grey + {v} - {v} == grey;
      }
    }

    /** The body of the loop over the out-edges of `v`. */
    method VisitEdge(v: int, j: int, ghost grey: set<int>, ghost root: int, ghost ns0: seq<SccNode>, ghost dfn0: int)
      requires Valid(grey + {v}) && dfn0 < dfn
      requires MayVisit(succ, ns0, grey, root, v) && !Visited(ns0, v)
      requires forall x :: x in grey ==> Visited(ns0, x) && ns0[x].dfn < dfn0
      requires 0 <= v < |succ| && 0 <= j < |succ[v]|
      requires After(ns0, dfn0, nodes[..]) && InProgress(succ, nodes[..], v, dfn0, j)
      modifies this, nodes, dfnStack
      ensures Valid(grey + {v}) && dfn0 < dfn
      ensures After(ns0, dfn0, nodes[..]) && InProgress(succ, nodes[..], v, dfn0, j + 1)
      decreases |succ| + 1 - dfn, 1
    {
      hide SearchInv, StackOk, Finished, MayVisit, InProgress;
      ghost var ns, dfn2 := nodes[..], dfn;
      EdgeFacts(succ, ns, dfnStack[..dfnTop], grey + {v}, dfn, component, v, dfn0, j);
      var w := succ[v][j];
      if nodes[w].dfn == 0 {
        MayVisitChild(succ, ns0, grey, root, v, ns, w);
        Visit(w, grey + {v}, root);
        ghost var ns2 := nodes[..];
        ChildFinished(succ, ns, ns2, v, dfn0, j, dfn2);
        AfterTrans(ns0, dfn0, ns, dfn2, ns2, v, if ns2[w].low < ns2[v].low then ns2[w].low else ns2[v].low);
        if nodes[w].low < nodes[v].low {
          Lower(v, w, grey + {v});
        } else {
          assert nodes[..] == ns2[v := ns2[v].(low := ns2[v].low)];
        }
      } else {
        EdgeExamined(succ, ns, v, dfn0, j);
        AfterTrans(ns0, dfn0, ns, dfn, ns, v, ns[w].low);
        if nodes[w].dfn < nodes[v].dfn && nodes[w].component == 0 && nodes[w].low < nodes[v].low {
          Lower(v, w, grey + {v});
        } else {
          assert nodes[..] == ns[v := ns[v].(low := ns[v].low)];
        }
      }
    }

    /** The loop of get_incr_sccs over the listed calls. */
    method Number()
      requires Valid({}) && forall v :: 0 <= v < nodes.Length ==> nodes[v].dfn == 0
      modifies this, nodes, dfnStack
      ensures nodes.Length == |succ| && Result(succ, nodes[..])
      ensures Correct(succ, nodes[..]) <==> forall w :: 0 <= w < |succ| && Leaf(succ, w) ==> !ReachedEarlier(succ, w)
    {
      hide SearchInv, MayVisit;
      var i := 0;
      while i < nodes.Length
        invariant 0 <= i <= nodes.Length && Valid({})
        invariant forall k :: 0 <= k < i ==> Visited(nodes[..], k)
      {
        if nodes[i].dfn == 0 {
          RootMayVisit(succ, nodes[..], dfnStack[..dfnTop], dfn, component, i);
          Visit(i, {}, i);
        }
        i := i + 1;
      }
      AllNumbered(succ, nodes[..], dfnStack[..dfnTop], dfn, component);
      CorrectIff(succ, nodes[..]);
    }
  }

  // ---------------------------------------------------------------- what the numbering is worth

  ghost predicate Correct(g: Graph, ns: seq<SccNode>)
    requires |ns| == |g|
  {
    forall u, w {:trigger Mutual(g, u, w)} :: 0 <= u < |g| && 0 <= w < |g| ==>
      (ns[u].component == ns[w].component <==> Mutual(g, u, w))
  }

  ghost predicate TakenAlong(g: Graph, ns: seq<SccNode>, w: int, u: int) {
    0 <= u < |ns| && 0 <= w < |ns| && Edge(g, u, w) && ns[u].component == ns[w].component
  }

  /** Inner nodes share a number exactly if they reach each other.  A leaf that an earlier listed node leads
      to has the number of a node with an edge to it; any other leaf has a number of its own. */
  ghost predicate Result(g: Graph, ns: seq<SccNode>) {
    && |ns| == |g|
    && (forall u, w {:trigger Mutual(g, u, w)} ::
          0 <= u < |g| && 0 <= w < |g| && !Leaf(g, u) && !Leaf(g, w) ==>
            (ns[w].component == ns[u].component <==> Mutual(g, u, w)))
    && (forall w :: 0 <= w < |g| && Leaf(g, w) ==>
          if ReachedEarlier(g, w) then exists u :: TakenAlong(g, ns, w, u)
          else forall x :: 0 <= x < |ns| && x != w ==> ns[x].component != ns[w].component)
  }

  lemma RootMayVisit(g: Graph, ns: seq<SccNode>, st: seq<int>, dfn: int, comp: int, i: int)
    requires SearchInv(g, ns, st, {}, dfn, comp) && 0 <= i < |ns| && !Visited(ns, i)
    requires forall k :: 0 <= k < i ==> Visited(ns, k)
    ensures MayVisit(g, ns, {}, i, i)
  {
  }

  lemma AllNumbered(g: Graph, ns: seq<SccNode>, st: seq<int>, dfn: int, comp: int)
    requires SearchInv(g, ns, st, {}, dfn, comp)
    requires forall v :: 0 <= v < |ns| ==> Visited(ns, v)
    ensures Result(g, ns)
  {
    forall u
      ensures !Live(g, ns, u)
    {
      assert Live(g, ns, u) ==> Climbs(g, ns, {}, u);
    }
    forall u, w {:trigger Mutual(g, u, w)} | 0 <= u < |g| && 0 <= w < |g| && !Leaf(g, u) && !Leaf(g, w)
      ensures ns[w].component == ns[u].component <==> Mutual(g, u, w)
    {
      assert Visited(ns, u) && !Live(g, ns, u);
      assert Numbered(g, ns, u);
    }
    forall w | 0 <= w < |g| && Leaf(g, w)
      ensures if ReachedEarlier(g, w) then exists u :: TakenAlong(g, ns, w, u)
              else forall x :: 0 <= x < |ns| && x != w ==> ns[x].component != ns[w].component
    {
      assert Visited(ns, w) && LeafOk(g, ns, st, {}, w);
      if Merged(g, ns, st, w) {
        var u :| MergedWith(g, ns, w, u);
        assert TakenAlong(g, ns, w, u);
      } else {
        assert Alone(g, ns, st, w);
      }
    }
  }

  lemma LeafLeadsNowhere(g: Graph, w: int, x: int)
    requires 0 <= w < |g| && Leaf(g, w) && Reach(g, w, x)
    ensures x == w
  {
    StaysInside(g, w, x, {w});
  }

  /** The numbers are those of the strongly connected components if and only if no node without out-edges
      is reachable from a node listed before it. */
  lemma CorrectIff(g: Graph, ns: seq<SccNode>)
    requires Result(g, ns)
    ensures Correct(g, ns) <==> forall w :: 0 <= w < |g| && Leaf(g, w) ==> !ReachedEarlier(g, w)
  {
    if w :| 0 <= w < |g| && Leaf(g, w) && ReachedEarlier(g, w) {
      var u :| TakenAlong(g, ns, w, u);
      assert u != w;
      if Mutual(g, u, w) { LeafLeadsNowhere(g, w, u); }
    } else {
      forall u, w {:trigger Mutual(g, u, w)} | 0 <= u < |g| && 0 <= w < |g|
        ensures ns[u].component == ns[w].component <==> Mutual(g, u, w)
      {
        if u == w {
          ReachSelf(g, u);
        } else if Mutual(g, u, w) {
          if Leaf(g, w) { LeafLeadsNowhere(g, w, u); }
          if Leaf(g, u) { LeafLeadsNowhere(g, u, w); }
        }
      }
    }
  }

  lemma OneEdgeMerges(ns: seq<SccNode>)
    requires Result([[1], []], ns)
    ensures ns[0].component == ns[1].component && !Mutual([[1], []], 0, 1)
  {
    var g: Graph := [[1], []];
    assert Edge(g, 0, 1);
    ReachEdge(g, 0, 1);
    assert ReachedEarlier(g, 1) && Leaf(g, 1);
    var u :| TakenAlong(g, ns, 1, u);
    if Mutual(g, 0, 1) { LeafLeadsNowhere(g, 1, 0); }
  }

  /** The smallest list that is numbered wrongly: a node with an edge to a node without out-edges listed after it. */
  method OneEdge() returns (search: SccSearch)
    ensures search.succ == [[1], []] && search.nodes.Length == 2
    ensures search.nodes[0].component == search.nodes[1].component && !Mutual(search.succ, 0, 1)
  {
    search := new SccSearch([[1], []]);
    search.Number();
    OneEdgeMerges(search.nodes[..]);
  }
}
