/** Invalidating a call and everything that depends on it, and taking an invalidation back when a call turns
    out unchanged. */
module Invalidation {
  import opened CallGraph
  import opened Walks

  ghost function Falses(nodes: set<CallNode>): Counters
    reads nodes`falsecount
  {
    map n | n in nodes :: n.falsecount
  }

  /** `k` are the counters, but for what has wrapped round. */
  ghost predicate Counted(nodes: set<CallNode>, k: Counters)
    reads nodes`falsecount
  {
    k.Keys == nodes && Falses(nodes) == Cut(k, FalseWidth)
  }

  ghost predicate Linked(nodes: set<CallNode>, g: Graph)
    reads nodes`outedges
  {
    g.Keys == nodes && forall n :: n in nodes ==> n.outedges == g[n]
  }

  // ---------------------------------------------------------------- the affected list

  /** No call of the list depends on one that comes later, or on itself. */
  ghost predicate Scheduled(g: Graph, list: seq<CallNode>) {
    forall i, j :: 0 <= i <= j < |list| && list[j] in g ==> list[i] !in g[list[j]]
  }

  ghost predicate ClosedUp(g: Graph, list: seq<CallNode>, m: set<CallNode>) {
    forall i :: 0 <= i < |list| && list[i] in g ==> Elements(g[list[i]]) <= m
  }

  ghost predicate Cyclic(g: Graph, n: CallNode) {
    n in g && exists y :: y in g[n] && Reach(g, y, n)
  }

  ghost predicate NoCycles(g: Graph, d: set<CallNode>) {
    forall n :: n in d ==> !Cyclic(g, n)
  }

  /** Unless there is a cycle among the calls newly invalidated, the list stays a schedule. */
  ghost predicate Tidy(g: Graph, m0: set<CallNode>, m: set<CallNode>, list0: seq<CallNode>, list: seq<CallNode>) {
    Scheduled(g, list0) && ClosedUp(g, list0, m0) && NoCycles(g, m - m0) ==> Scheduled(g, list)
  }

  lemma {:induction false} ReachBackIn(g: Graph, ins: Graph, a: CallNode, b: CallNode, n: nat)
    requires Mirrored(g, ins) && ReachIn(ins, a, b, n)
    ensures Reach(g, b, a)
    decreases n
  {
    if n == 0 {
      ReachSelf(g, a);
    } else {
      var c :| c in ins[a] && ReachIn(ins, c, b, n - 1);
      ReachBackIn(g, ins, c, b, n - 1);
      assert a in g[c];
      ReachSelf(g, a);
      ReachStep(g, c, a, a);
      ReachTrans(g, b, c, a);
    }
  }

  lemma ReachBack(g: Graph, ins: Graph, a: CallNode, b: CallNode)
    requires Mirrored(g, ins) && Reach(ins, a, b)
    ensures Reach(g, b, a)
  {
    var n: nat :| ReachIn(ins, a, b, n);
    ReachBackIn(g, ins, a, b, n);
  }

  /** A list that contains all dependents of its calls is a schedule only if no call of it is on a cycle. */
  lemma ScheduleHasNoCycle(g: Graph, list: seq<CallNode>, k: int)
    requires NoDuplicates(list) && Scheduled(g, list) && (forall n :: n in list ==> n in g) &&
               ClosedUp(g, list, Elements(list)) && 0 <= k < |list|
    ensures !Cyclic(g, list[k])
  {
    if Cyclic(g, list[k]) {
      var y :| y in g[list[k]] && Reach(g, y, list[k]);
      // Whatever depends on the call comes after it.
      var after := Elements(list[k + 1..]);
      forall a, b | a in after + {list[k]} && a in g && b in g[a]
        ensures b in after
      {
        var i :| k <= i < |list| && list[i] == a;
        assert b in Elements(g[a]);
        var j :| 0 <= j < |list| && list[j] == b;
        assert j > i;
        assert list[k + 1..][j - k - 1] == b;
      }
      StaysInside(g, y, list[k], after);
    }
  }

  // ---------------------------------------------------------------- invalidating

  ghost predicate Blocked(g: Graph, c: CallNode, m0: set<CallNode>, incomplete: set<CallNode>) {
    exists n :: n in incomplete && n !in m0 && Reach(g, c, n)
  }

  /** What invalidating from `c` on has done: `m` are the invalidated calls, `k` their counters and `list` the
      affected list, with their values before it. */
  ghost predicate Spread(g: Graph, ins: Graph, c: CallNode, m0: set<CallNode>, m: set<CallNode>, k0: Counters,
                         k: Counters, list0: seq<CallNode>, list: seq<CallNode>, incomplete: set<CallNode>) {
    && Walked(ins, g, c, m0, m, k0, k)
    && Listed(list, list0, m - m0) && m - m0 !! incomplete && Tidy(g, m0, m, list0, list)
  }

  /** The same in the middle of it, when `i` dependents of `c` have been handled and `c` is not yet listed. */
  ghost predicate Spreading(g: Graph, ins: Graph, c: CallNode, i: int, m0: set<CallNode>, m: set<CallNode>,
                            k0: Counters, k: Counters, list0: seq<CallNode>, list: seq<CallNode>,
                            incomplete: set<CallNode>)
    requires c in g && 0 <= i <= |g[c]|
  {
    && Walking(ins, g, c, i, m0, m, k0, k)
    && Listed(list, list0, m - m0 - {c}) && m - m0 !! incomplete && Tidy(g, m0, m, list0, list)
  }

  lemma SpreadingStarts(g: Graph, ins: Graph, c: CallNode, m0: set<CallNode>, k: Counters, list: seq<CallNode>,
                        incomplete: set<CallNode>)
    requires Mirrored(g, ins) && c in g && c !in m0 && c !in incomplete && k.Keys == g.Keys
    ensures Spreading(g, ins, c, 0, m0, m0 + {c}, k, k, list, list, incomplete)
  {
    hide Walking;
    WalkStarts(ins, g, c, m0, k);
    assert m0 + {c} - m0 == {c} && m0 + {c} - m0 - {c} == {} && list[..0] == [];
  }

  lemma ClosedUpLater(g: Graph, m0: set<CallNode>, m: set<CallNode>, d: set<CallNode>, list0: seq<CallNode>,
                      list: seq<CallNode>)
    requires m0 <= m && Listed(list, list0, d) && ClosedBelow(g, d, m) && ClosedUp(g, list0, m0)
    ensures ClosedUp(g, list, m)
  {
    var front := list[..|list| - |list0|];
    forall i | 0 <= i < |list| && list[i] in g
      ensures Elements(g[list[i]]) <= m
    {
      if i < |front| {
        assert front[i] in Elements(front);
      } else {
        assert list[i] == list0[i - |front|];
      }
    }
  }

  lemma TidyTwice(g: Graph, m0: set<CallNode>, m: set<CallNode>, m2: set<CallNode>, d: set<CallNode>,
                  list0: seq<CallNode>, list: seq<CallNode>, list2: seq<CallNode>)
    requires m0 <= m <= m2 && Listed(list, list0, d) && ClosedBelow(g, d, m)
    requires Tidy(g, m0, m, list0, list) && Tidy(g, m, m2, list, list2)
    ensures Tidy(g, m0, m2, list0, list2)
  {
    hide Scheduled, Cyclic, Listed, ClosedBelow, ClosedUp;
    if Scheduled(g, list0) && ClosedUp(g, list0, m0) && NoCycles(g, m2 - m0) {
      ClosedUpLater(g, m0, m, d, list0, list);
    }
  }

  lemma TidyFront(g: Graph, ins: Graph, c: CallNode, m0: set<CallNode>, m: set<CallNode>, list0: seq<CallNode>,
                  list: seq<CallNode>)
    requires Mirrored(g, ins) && c in g && c in m - m0 && Leading(ins, m - m0, c)
    requires Tidy(g, m0, m, list0, list) && Listed(list, list0, m - m0 - {c})
    ensures Tidy(g, m0, m, list0, [c] + list)
  {
    hide Mirrored, NoDuplicates;
    if Scheduled(g, list0) && ClosedUp(g, list0, m0) && NoCycles(g, m - m0) {
      var front := list[..|list| - |list0|];
      ReachSelf(g, c);
      assert c !in g[c];
      forall j | 0 <= j < |list| && list[j] in g
        ensures c !in g[list[j]]
      {
        var y := list[j];
        if j < |front| {
          assert front[j] in Elements(front);
          ReachBack(g, ins, y, c);
        } else {
          assert y == list0[j - |front|];
          assert Elements(g[y]) <= m0;
        }
      }
      forall i, j | 0 <= i <= j < |list| + 1 && ([c] + list)[j] in g
        ensures ([c] + list)[i] !in g[([c] + list)[j]]
      {
        if i > 0 { assert ([c] + list)[i] == list[i - 1] && ([c] + list)[j] == list[j - 1]; }
        if i == 0 && j > 0 { assert ([c] + list)[j] == list[j - 1]; }
      }
    }
  }

  lemma SpreadingGoesOn(g: Graph, ins: Graph, c: CallNode, i: int, m0: set<CallNode>, m: set<CallNode>,
                        m2: set<CallNode>, k0: Counters, k: Counters, list0: seq<CallNode>, list: seq<CallNode>,
                        k2: Counters, list2: seq<CallNode>, incomplete: set<CallNode>)
    requires Mirrored(g, ins) && c in g && 0 <= i < |g[c]| && g[c][i] in k
    requires Spreading(g, ins, c, i, m0, m, k0, k, list0, list, incomplete)
    requires Spread(g, ins, g[c][i], m, m2, k[g[c][i] := k[g[c][i]] + 1], k2, list, list2, incomplete)
    ensures Spreading(g, ins, c, i + 1, m0, m2, k0, k2, list0, list2, incomplete)
  {
    var c1 := g[c][i];
    var k1 := k[c1 := k[c1] + 1];
    SpreadingSets(g, ins, c, i, m0, m, k0, k, list0, list, incomplete);
    WalkedMore(ins, g, c1, m, m2, k1, k2);
    hide Walked, Walking, Tidy, Listed, Mirrored;
    WalkEdge(ins, g, c, i, m0, m, k0, k);
    WalkGoesOn(ins, g, c, i, m0, m, m2, k0, k, k1, k2);
    TidyTwice(g, m0, m, m2, m - m0 - {c}, list0, list, list2);
    ListedTwice(list0, list, list2, m - m0 - {c}, m2 - m);
    assert m - m0 - {c} + (m2 - m) == m2 - m0 - {c};
  }

  lemma SpreadingSets(g: Graph, ins: Graph, c: CallNode, i: int, m0: set<CallNode>, m: set<CallNode>, k0: Counters,
                      k: Counters, list0: seq<CallNode>, list: seq<CallNode>, incomplete: set<CallNode>)
    requires c in g && 0 <= i <= |g[c]| && Spreading(g, ins, c, i, m0, m, k0, k, list0, list, incomplete)
    ensures c !in m0 && m0 + {c} <= m && ClosedBelow(g, m - m0 - {c}, m)
  {
  }

  lemma SpreadingEnds(g: Graph, ins: Graph, c: CallNode, m0: set<CallNode>, m: set<CallNode>, k0: Counters, k: Counters,
                      list0: seq<CallNode>, list: seq<CallNode>, incomplete: set<CallNode>)
    requires Mirrored(g, ins) && c in g
    requires Spreading(g, ins, c, |g[c]|, m0, m, k0, k, list0, list, incomplete)
    ensures Spread(g, ins, c, m0, m, k0, k, list0, [c] + list, incomplete)
  {
    SpreadingSets(g, ins, c, |g[c]|, m0, m, k0, k, list0, list, incomplete);
    WalkEnds(ins, g, c, m0, m, k0, k);
    assert Leading(ins, m - m0, c);
    hide Walked, Walking, Tidy, Mirrored, NoDuplicates;
    TidyFront(g, ins, c, m0, m, list0, list);
    ListedFront(c, list0, list, m - m0 - {c});
    assert m - m0 - {c} + {c} == m - m0;
  }

  lemma ListedFront(c: CallNode, list0: seq<CallNode>, list: seq<CallNode>, d: set<CallNode>)
    requires Listed(list, list0, d) && c !in d
    ensures Listed([c] + list, list0, d + {c})
  {
    var front := list[..|list| - |list0|];
    assert ([c] + list)[..|[c] + list| - |list0|] == [c] + front;
    forall i | 0 <= i < |front|
      ensures front[i] != c
    {
      assert front[i] in Elements(front);
    }
    forall n | n in [c] + front
      ensures n in d + {c}
    {
      if n != c { assert n in Elements(front); }
    }
    assert Elements([c] + front) == d + {c};
  }

  lemma NothingSpread(g: Graph, ins: Graph, c: CallNode, m: set<CallNode>, k: Counters, list: seq<CallNode>,
                      incomplete: set<CallNode>)
    requires c in m && k.Keys == ins.Keys
    ensures Spread(g, ins, c, m, m, k, k, list, list, incomplete)
  {
    hide Walked, Scheduled;
    AlreadyVisited(ins, g, c, m, k);
    assert m - m == {} && list[..0] == [];
  }

  lemma BlockedAbove(g: Graph, c: CallNode, c1: CallNode, m0: set<CallNode>, m: set<CallNode>,
                     incomplete: set<CallNode>)
    requires c in g && c1 in g[c] && m0 <= m && Blocked(g, c1, m, incomplete)
    ensures Blocked(g, c, m0, incomplete)
  {
    var n :| n in incomplete && n !in m && Reach(g, c1, n);
    ReachStep(g, c, c1, n);
  }

  /** What an invalidation request for `c` does. */
  ghost predicate Invalidated(g: Graph, ins: Graph, c: CallNode, m0: set<CallNode>, m: set<CallNode>, k0: Counters,
                              k: Counters, list0: seq<CallNode>, list: seq<CallNode>)
    requires c in k0
  {
    if c in m0
    then m == m0 && k == k0 && list == list0
    else Spread(g, ins, c, m0, m, k0[c := k0[c] + 1], k, list0, list, {})
  }

  /** Counters raised by one for each edge from `d`. */
  ghost function Raised(ins: Graph, k: Counters, d: set<CallNode>): Counters {
    map n | n in ins && n in k :: k[n] + Count(ins[n], d)
  }

  /** The same for counters that are what is left of them in 14 bits. */
  ghost predicate InvalidatedCut(g: Graph, ins: Graph, c: CallNode, m0: set<CallNode>, m: set<CallNode>,
                                 k0: Counters, k: Counters, list0: seq<CallNode>, list: seq<CallNode>)
    requires c in k0
  {
    var wide := if c in m0 then k0 else Raised(ins, k0[c := k0[c] + 1], m - m0);
    Invalidated(g, ins, c, m0, m, k0, wide, list0, list) && k == Cut(wide, FalseWidth)
  }

  // ---------------------------------------------------------------- reporting no change

  /** A counter after `times` attempts to lower it that stop at zero. */
  function Drop(count: int, times: nat): (r: int)
    ensures r > 0 <==> count > times
  {
    if count <= 0 then count else if count <= times then 0 else count - times
  }

  ghost function Zeros(k: Counters): set<CallNode> {
    set n | n in k && k[n] <= 0
  }

  /** Every counter has dropped once for each edge from `d`. */
  ghost predicate Lowered(ins: Graph, k0: Counters, k: Counters, d: set<CallNode>) {
    && k0.Keys == k.Keys == ins.Keys
    && forall n :: n in ins ==> k[n] == Drop(k0[n], Count(ins[n], d))
  }

  ghost predicate PartLowered(ins: Graph, k0: Counters, k: Counters, d: set<CallNode>, some: seq<CallNode>) {
    && k0.Keys == k.Keys == ins.Keys
    && forall n :: n in ins ==> k[n] == Drop(k0[n], Count(ins[n], d) + if n in some then 1 else 0)
  }

  /** `v` contains every call whose counter the edges from `v` would bring to zero. */
  ghost predicate Closed(ins: Graph, k: Counters, v: set<CallNode>)
    requires k.Keys == ins.Keys
  {
    forall n :: n in ins && 0 < k[n] <= Count(ins[n], v) ==> n in v
  }

  /** No closed set with `c` in it lacks a call of `d`. */
  ghost predicate Least(ins: Graph, k: Counters, c: CallNode, d: set<CallNode>)
    requires k.Keys == ins.Keys
  {
    forall v :: v <= ins.Keys && c in v && Closed(ins, k, v) ==> d <= v
  }

  /** What reporting `c` unchanged has done: exactly the calls of `d` have lost their last outstanding edge. */
  ghost predicate Reported(ins: Graph, c: CallNode, k0: Counters, k: Counters, d: set<CallNode>) {
    k0.Keys == ins.Keys && Lowered(ins, k0, k, d + {c}) && d == Zeros(k) - Zeros(k0) && Least(ins, k0, c, d)
  }

  /** The same in the middle of it, when `i` dependents of `c` have been handled. */
  ghost predicate Reporting(g: Graph, ins: Graph, c: CallNode, i: int, k0: Counters, k: Counters, d: set<CallNode>)
    requires c in g && 0 <= i <= |g[c]|
  {
    && k0.Keys == ins.Keys && PartLowered(ins, k0, k, d, g[c][..i])
    && d == Zeros(k) - Zeros(k0) && Least(ins, k0, c, d)
  }

  function LowerOne(k: Counters, c: CallNode): Counters
    requires c in k
  {
    if k[c] > 0 then k[c := k[c] - 1] else k
  }

  /** What following one edge to `c` has done: `d` is empty unless `c` has lost its last outstanding edge. */
  ghost predicate EdgeReported(ins: Graph, c: CallNode, k0: Counters, k: Counters, d: set<CallNode>)
    requires c in k0
  {
    if k0[c] == 1
    then c in d && Reported(ins, c, k0[c := 0], k, d - {c})
    else d == {} && k == LowerOne(k0, c)
  }

  lemma ReportingStarts(g: Graph, ins: Graph, c: CallNode, k: Counters)
    requires c in g && k.Keys == ins.Keys
    ensures Reporting(g, ins, c, 0, k, k, {})
  {
    forall n | n in ins
      ensures Count(ins[n], {}) == 0
    {
      CountBound(ins[n], {});
    }
    assert Zeros(k) - Zeros(k) == {};
  }

  lemma ReportingEnds(g: Graph, ins: Graph, c: CallNode, k0: Counters, k: Counters, d: set<CallNode>)
    requires Mirrored(g, ins) && c in g && Reporting(g, ins, c, |g[c]|, k0, k, d) && c in Zeros(k0)
    ensures Reported(ins, c, k0, k, d)
  {
    assert g[c][..|g[c]|] == g[c];
    assert c !in d;
    forall n | n in ins
      ensures k[n] == Drop(k0[n], Count(ins[n], d + {c}))
    {
      CountDisjoint(ins[n], d, {c});
      CountSingle(ins[n], c);
    }
  }

  lemma LowerEdge(g: Graph, ins: Graph, c: CallNode, i: int, k0: Counters, k: Counters, d: set<CallNode>)
    requires Mirrored(g, ins) && c in g && 0 <= i < |g[c]| && PartLowered(ins, k0, k, d, g[c][..i])
    ensures g[c][i] in ins && PartLowered(ins, k0, LowerOne(k, g[c][i]), d, g[c][..i + 1])
  {
    hide Count;
    var c1 := g[c][i];
    assert c1 in g[c] && c1 !in g[c][..i];
    assert g[c][..i + 1] == g[c][..i] + [c1];
  }

  lemma LowerMore(ins: Graph, k0: Counters, k1: Counters, k2: Counters, d: set<CallNode>, d2: set<CallNode>,
                  some: seq<CallNode>)
    requires d !! d2 && PartLowered(ins, k0, k1, d, some) && Lowered(ins, k1, k2, d2)
    ensures PartLowered(ins, k0, k2, d + d2, some)
  {
    forall n | n in ins
      ensures k2[n] == Drop(k0[n], Count(ins[n], d + d2) + if n in some then 1 else 0)
    {
      CountDisjoint(ins[n], d, d2);
    }
  }

  /** Following the edge from `c` to `c1` has brought `c1` to zero: the closed sets for what is left. */
  lemma ClosedRest(g: Graph, ins: Graph, c: CallNode, i: int, k0: Counters, k: Counters, d: set<CallNode>,
                   v: set<CallNode>)
    requires Mirrored(g, ins) && c in g && 0 <= i < |g[c]| && k0.Keys == ins.Keys && c in Zeros(k0)
    requires PartLowered(ins, k0, k, d, g[c][..i + 1]) && d <= Zeros(k) - Zeros(k0) &&
             g[c][i] in Zeros(k) - Zeros(k0) - d
    requires g[c][i] in ins && Drop(k0[g[c][i]], Count(ins[g[c][i]], d)) > 0
    requires v <= ins.Keys && c in v && Closed(ins, k0, v) && d <= v
    ensures g[c][i] in v - d - {c} && Closed(ins, k, v - d - {c})
  {
    var c1, rest := g[c][i], v - d - {c};
    assert c !in d && rest + (d + {c}) == v;
    forall n | n in ins
      ensures Count(ins[n], v) == Count(ins[n], rest) + Count(ins[n], d) + if c in ins[n] then 1 else 0
    {
      CountDisjoint(ins[n], rest, d + {c});
      CountDisjoint(ins[n], d, {c});
      CountSingle(ins[n], c);
    }
    hide Count;
    forall n | n in ins && n in g[c]
      ensures c in ins[n]
    {
    }
    assert c1 in g[c];
    forall n | n in ins && 0 < k[n] <= Count(ins[n], rest)
      ensures n in rest
    {
      if n in g[c][..i + 1] { assert n in g[c]; }
      assert k0[n] <= Count(ins[n], v);
    }
  }

  lemma LeastMore(g: Graph, ins: Graph, c: CallNode, i: int, k0: Counters, k: Counters, d: set<CallNode>,
                  d2: set<CallNode>)
    requires Mirrored(g, ins) && c in g && 0 <= i < |g[c]| && k0.Keys == ins.Keys && c in Zeros(k0)
    requires PartLowered(ins, k0, k, d, g[c][..i + 1]) && d <= Zeros(k) - Zeros(k0) &&
             g[c][i] in Zeros(k) - Zeros(k0) - d
    requires g[c][i] in ins && Drop(k0[g[c][i]], Count(ins[g[c][i]], d)) > 0
    requires Least(ins, k0, c, d) && Least(ins, k, g[c][i], d2)
    ensures Least(ins, k0, c, d + {g[c][i]} + d2)
  {
    hide PartLowered, Count, Drop, Closed, Mirrored;
    forall v | v <= ins.Keys && c in v && Closed(ins, k0, v)
      ensures d + {g[c][i]} + d2 <= v
    {
      assert d <= v;
      ClosedRest(g, ins, c, i, k0, k, d, v);
      assert d2 <= v - d - {c};
    }
  }

  lemma ZerosOfOne(k: Counters, c: CallNode)
    requires c in k
    ensures Zeros(LowerOne(k, c)) == if k[c] == 1 then Zeros(k) + {c} else Zeros(k)
  {
  }

  lemma ReportingFalls(g: Graph, ins: Graph, c: CallNode, i: int, k0: Counters, k: Counters, k1: Counters, k2: Counters,
                       d: set<CallNode>, d2: set<CallNode>)
    requires Mirrored(g, ins) && c in g && 0 <= i < |g[c]| && g[c][i] in ins && c in Zeros(k0) && k0.Keys == ins.Keys
    requires PartLowered(ins, k0, k1, d, g[c][..i + 1]) && Drop(k0[g[c][i]], Count(ins[g[c][i]], d)) > 0
    requires d == Zeros(k) - Zeros(k0) && Zeros(k0) <= Zeros(k) && Zeros(k1) == Zeros(k) + {g[c][i]} &&
             g[c][i] !in Zeros(k)
    requires Least(ins, k0, c, d) && g[c][i] in d2 && Reported(ins, g[c][i], k1, k2, d2 - {g[c][i]})
    ensures Reporting(g, ins, c, i + 1, k0, k2, d + d2)
  {
    hide PartLowered, Lowered, Count, Drop, Mirrored, Least, Zeros;
    var c1 := g[c][i];
    assert d2 - {c1} + {c1} == d2;
    ZerosGrow(ins, k1, k2, d2);
    GrowTwice(Zeros(k0), Zeros(k), Zeros(k2), c1, d, d2);
    LeastMore(g, ins, c, i, k0, k1, d, d2 - {c1});
    LowerMore(ins, k0, k1, k2, d, d2, g[c][..i + 1]);
  }

  lemma GrowTwice(z0: set<CallNode>, z: set<CallNode>, z2: set<CallNode>, c: CallNode, d: set<CallNode>,
                  d2: set<CallNode>)
    requires z0 <= z && c !in z && z + {c} <= z2 && d == z - z0 && c in d2 && d2 - {c} == z2 - (z + {c})
    ensures d !! d2 && d + {c} + (d2 - {c}) == d + d2 && d + d2 == z2 - z0
  {
    assert d2 == d2 - {c} + {c} == z2 - (z + {c}) + {c} == z2 - z;
  }

  lemma ReportingGoesOn(g: Graph, ins: Graph, c: CallNode, i: int, k0: Counters, k: Counters, k2: Counters,
                        d: set<CallNode>, d2: set<CallNode>)
    requires Mirrored(g, ins) && c in g && 0 <= i < |g[c]| && g[c][i] in k && c in Zeros(k0)
    requires Reporting(g, ins, c, i, k0, k, d) && EdgeReported(ins, g[c][i], k, k2, d2)
    ensures Reporting(g, ins, c, i + 1, k0, k2, d + d2)
  {
    var c1 := g[c][i];
    var k1 := LowerOne(k, c1);
    LowerEdge(g, ins, c, i, k0, k, d);
    ZerosOfOne(k, c1);
    PartZerosGrow(ins, k0, k, d, g[c][..i]);
    if k[c1] == 1 {
      PartAt(g, ins, c, i, k0, k, d);
      hide PartLowered, Lowered, Count, Drop, Mirrored, Least, Zeros, Reported;
      assert k1 == k[c1 := 0];
      ReportingFalls(g, ins, c, i, k0, k, k1, k2, d, d2);
    } else {
      assert d + d2 == d;
    }
  }

  lemma PartAt(g: Graph, ins: Graph, c: CallNode, i: int, k0: Counters, k: Counters, d: set<CallNode>)
    requires Mirrored(g, ins) && c in g && 0 <= i < |g[c]| && g[c][i] in ins && PartLowered(ins, k0, k, d, g[c][..i])
    ensures k[g[c][i]] == Drop(k0[g[c][i]], Count(ins[g[c][i]], d))
    ensures g[c][i] in Zeros(k) <==> k[g[c][i]] <= 0
  {
    hide Count;
    assert g[c][i] !in g[c][..i];
  }

  lemma PartZerosGrow(ins: Graph, k0: Counters, k: Counters, d: set<CallNode>, some: seq<CallNode>)
    requires PartLowered(ins, k0, k, d, some)
    ensures Zeros(k0) <= Zeros(k)
  {
  }

  /** The calls made valid are the least set that contains every call all of whose outstanding edges come from
      `c` or from the set. */
  lemma DischargedIsLeast(ins: Graph, c: CallNode, k0: Counters, k: Counters, d: set<CallNode>)
    requires Reported(ins, c, k0, k, d) && c in Zeros(k0)
    ensures Closed(ins, k0, d + {c}) && d <= ins.Keys
    ensures forall v :: v <= ins.Keys && c in v && Closed(ins, k0, v) ==> d + {c} <= v
    ensures forall n :: n in d ==> k0[n] > 0 && k[n] == 0 && Count(ins[n], d + {c}) >= k0[n]
  {
    hide Count;
    assert forall n :: n in d ==> n in ins;
  }

  lemma ZerosGrow(ins: Graph, k0: Counters, k: Counters, d: set<CallNode>)
    requires Lowered(ins, k0, k, d)
    ensures Zeros(k0) <= Zeros(k)
  {
  }

  class Invalidator {
    // The calls invalidated since the list was last fetched.
    var affected: seq<CallNode>

    /** Marks `c` and everything that depends on it as invalid, counting for each call the edges from invalid
        calls; fails when it meets a call with an incomplete table.  `k0` and `k` are what the counters would be
        if they did not wrap round. */
    method DfsOutedges(c: CallNode, incomplete: set<CallNode>,
                       ghost nodes: set<CallNode>, ghost g: Graph, ghost ins: Graph, ghost k0: Counters)
      returns (ok: bool, ghost k: Counters)
      requires Mirrored(g, ins) && Linked(nodes, g) && c in nodes && !c.deleted
      requires Counted(nodes, k0)
      modifies this, nodes`deleted, nodes`falsecount
      ensures Counted(nodes, k)
      ensures ok ==> Spread(g, ins, c, old(Marked(nodes)), Marked(nodes), k0, k, old(affected), affected, incomplete)
      ensures !ok ==> Blocked(g, c, old(Marked(nodes)), incomplete) && affected == []
      decreases nodes - Marked(nodes), 0
    {
      hide *;
      ghost var m0, list0 := Marked(nodes), affected;
      k := k0;
      OutedgesOf(c, nodes, g);
      NotMarked(c, nodes);
      CountedKeys(nodes, k0);
      if c in incomplete {
        affected := [];
        BlockedHere(g, c, m0, incomplete);
        return false, k;
      }
      Flag(c, nodes);
      MirroredKeys(g, ins);
      SpreadingStarts(g, ins, c, m0, k0, list0, incomplete);
      var i := 0;
      while i < |c.outedges|
        invariant 0 <= i <= |g[c]| && c.outedges == g[c] && m0 + {c} <= Marked(nodes)
        invariant Counted(nodes, k)
        invariant Spreading(g, ins, c, i, m0, Marked(nodes), k0, k, list0, affected, incomplete)
      {
        ghost var m, k1, list := Marked(nodes), k, affected;
        OutedgeIn(g, ins, c, i, k, nodes);
        CountedKeys(nodes, k1);
        ok, k := VisitOutedge(c.outedges[i], incomplete, nodes, g, ins, k1);
        if !ok {
          BlockedAbove(g, c, g[c][i], m0, m, incomplete);
          return;
        }
        SpreadingGoesOn(g, ins, c, i, m0, m, Marked(nodes), k0, k1, list0, list, k, affected, incomplete);
        i := i + 1;
      }
      SpreadingEnds(g, ins, c, m0, Marked(nodes), k0, k, list0, affected, incomplete);
      affected := [c] + affected;
      ok := true;
    }

    method Flag(c: CallNode, ghost nodes: set<CallNode>)
      requires c in nodes
      modifies c`deleted
      ensures Marked(nodes) == old(Marked(nodes)) + {c}
    {
      c.deleted := true;
    }

    method VisitOutedge(c1: CallNode, incomplete: set<CallNode>,
                        ghost nodes: set<CallNode>, ghost g: Graph, ghost ins: Graph, ghost k0: Counters)
      returns (ok: bool, ghost k: Counters)
      requires Mirrored(g, ins) && Linked(nodes, g) && c1 in nodes
      requires Counted(nodes, k0)
      modifies this, nodes`deleted, nodes`falsecount
      ensures Counted(nodes, k)
      ensures ok ==> Spread(g, ins, c1, old(Marked(nodes)), Marked(nodes), k0[c1 := k0[c1] + 1], k,
                            old(affected), affected, incomplete) &&
                     old(Marked(nodes)) <= Marked(nodes)
      ensures !ok ==> Blocked(g, c1, old(Marked(nodes)), incomplete) && affected == []
      decreases nodes - Marked(nodes), 1
    {
      hide *;
      CountedKeys(nodes, k0);
      ghost var m0, k1 := Marked(nodes), k0[c1 := k0[c1] + 1];
      OutedgesOf(c1, nodes, g);
      NotMarked(c1, nodes);
      Count1(c1, nodes, k0);
      MirroredKeys(g, ins);
      if !c1.deleted {
        ok, k := DfsOutedges(c1, incomplete, nodes, g, ins, k1);
        if !ok { return; }
      } else {
        NothingSpread(g, ins, c1, m0, k1, affected, incomplete);
        ok, k := true, k1;
      }
      SpreadMore(g, ins, c1, m0, Marked(nodes), k1, k, old(affected), affected, incomplete);
    }

    /** Counts one more invalid call on which `c` depends. */
    method Count1(c: CallNode, ghost nodes: set<CallNode>, ghost k: Counters)
      requires c in nodes && Counted(nodes, k)
      modifies c`falsecount
      ensures Counted(nodes, k[c := k[c] + 1])
    {
      CutOne(k, c, k[c] + 1, FalseWidth);
      CutStep(k[c], 1, FalseWidth);
      ghost var k0 := Falses(nodes);
      assert c.falsecount == k0[c];
      hide Cut;
      c.falsecount := (c.falsecount + 1) % FalseWidth;
      assert Falses(nodes) == k0[c := (k0[c] + 1) % FalseWidth];
    }

    /** Invalidates `c`, unless it is invalid already. */
    method InvalidateCall(c: CallNode, incomplete: set<CallNode>, ghost nodes: set<CallNode>, ghost g: Graph,
                          ghost ins: Graph)
      returns (ok: bool, ghost k: Counters)
      requires Mirrored(g, ins) && Linked(nodes, g) && c in nodes
      modifies this, nodes`deleted, nodes`falsecount
      ensures Counted(nodes, k)
      ensures ok ==> Invalidated(g, ins, c, old(Marked(nodes)), Marked(nodes), old(Falses(nodes)), k,
                                 old(affected), affected)
      ensures ok ==> InvalidatedCut(g, ins, c, old(Marked(nodes)), Marked(nodes), old(Falses(nodes)), Falses(nodes),
                                    old(affected), affected)
      ensures ok ==> Marked(nodes) - old(Marked(nodes)) !! incomplete
      ensures !ok ==> Blocked(g, c, old(Marked(nodes)), incomplete) && affected == []
    {
      hide *;
      ghost var m0, k0, list0 := Marked(nodes), Falses(nodes), affected;
      CutWhole(nodes);
      CountedKeys(nodes, k0);
      NotMarked(c, nodes);
      ok, k := true, k0;
      if !c.deleted {
        ghost var k1 := k0[c := k0[c] + 1];
        Count1(c, nodes, k0);
        assert Marked(nodes) == m0;
        ok, k := DfsOutedges(c, incomplete, nodes, g, ins, k1);
        if ok { SpreadInvalidates(g, ins, c, m0, Marked(nodes), k0, k, list0, affected, incomplete); }
      } else {
        NothingInvalidated(g, ins, c, m0, k0, list0);
      }
      if ok { LeftAfter(nodes, g, ins, c, m0, Marked(nodes), k0, k, list0, affected); }
    }

    /** Reports that `c`, whose own counter is zero, has been found unchanged: each edge out of it is discharged,
        and so are, once each, the edges out of every call whose last outstanding edge this was. */
    method PropagateNoChange(c: CallNode, ghost nodes: set<CallNode>, ghost g: Graph, ghost ins: Graph)
      returns (ghost d: set<CallNode>)
      requires Mirrored(g, ins) && Linked(nodes, g) && c in nodes && c.falsecount == 0
      modifies nodes`deleted, nodes`falsecount
      ensures Reported(ins, c, old(Falses(nodes)), Falses(nodes), d) && Marked(nodes) == old(Marked(nodes)) - d
      ensures Zeros(old(Falses(nodes))) <= Zeros(Falses(nodes))
      decreases nodes - Zeros(Falses(nodes)), 1
    {
      hide Mirrored, Reporting, Reported, EdgeReported;
      ghost var m0, k0 := Marked(nodes), Falses(nodes);
      assert c in Zeros(k0) && g.Keys == nodes == k0.Keys;
      hide Marked, Falses, Zeros;
      MirroredKeys(g, ins);
      ReportingStarts(g, ins, c, k0);
      d := {};
      var i := 0;
      while i < |c.outedges|
        invariant 0 <= i <= |g[c]| && c.outedges == g[c]
        invariant Reporting(g, ins, c, i, k0, Falses(nodes), d) && Marked(nodes) == m0 - d
        invariant Zeros(k0) <= Zeros(Falses(nodes))
      {
        ghost var k := Falses(nodes);
        OutedgeIn(g, ins, c, i, k, nodes);
        FalsesKeys(nodes);
        ghost var d2 := VisitDependent(c.outedges[i], nodes, g, ins);
        ReportingGoesOn(g, ins, c, i, k0, k, Falses(nodes), d, d2);
        d := d + d2;
        i := i + 1;
      }
      ReportingEnds(g, ins, c, k0, Falses(nodes), d);
    }

    method VisitDependent(c: CallNode, ghost nodes: set<CallNode>, ghost g: Graph, ghost ins: Graph)
      returns (ghost d: set<CallNode>)
      requires Mirrored(g, ins) && Linked(nodes, g) && c in nodes
      modifies nodes`deleted, nodes`falsecount
      ensures EdgeReported(ins, c, old(Falses(nodes)), Falses(nodes), d) && Marked(nodes) == old(Marked(nodes)) - d
      ensures Zeros(old(Falses(nodes))) <= Zeros(Falses(nodes))
      decreases nodes - Zeros(Falses(nodes)), 0
    {
      hide Mirrored, Reported, EdgeReported, Falses, Marked, Zeros;
      ghost var k0 := Falses(nodes);
      FalsesKeys(nodes);
      var last := Discharge(c, nodes);
      ZerosOfOne(k0, c);
      if last {
        LastEdge(k0, c);
        d := PropagateNoChange(c, nodes, g, ins);
        EdgeFalls(ins, c, k0, Falses(nodes), d);
        d := d + {c};
      } else {
        d := {};
        EdgeStays(ins, c, k0, Falses(nodes));
      }
    }

    /** Lowers the counter of `c` unless it is zero, and makes `c` valid when it reaches zero. */
    method Discharge(c: CallNode, ghost nodes: set<CallNode>) returns (last: bool)
      requires c in nodes
      modifies c`deleted, c`falsecount
      ensures Falses(nodes) == LowerOne(old(Falses(nodes)), c) && last == old(Falses(nodes)[c] == 1)
      ensures Marked(nodes) == if last then old(Marked(nodes)) - {c} else old(Marked(nodes))
      ensures last ==> c.falsecount == 0
    {
      last := false;
      if c.falsecount > 0 {
        c.falsecount := c.falsecount - 1;
        if c.falsecount == 0 {
          c.deleted := false;
          last := true;
        }
      }
    }
  }

  lemma LeftAfter(nodes: set<CallNode>, g: Graph, ins: Graph, c: CallNode, m0: set<CallNode>, m: set<CallNode>,
                  k0: Counters, k: Counters, list0: seq<CallNode>, list: seq<CallNode>)
    requires Counted(nodes, k) && c in k0 && Invalidated(g, ins, c, m0, m, k0, k, list0, list)
    ensures InvalidatedCut(g, ins, c, m0, m, k0, Falses(nodes), list0, list)
  {
    hide Count;
    if c !in m0 {
      assert k == Raised(ins, k0[c := k0[c] + 1], m - m0);
    }
  }

  lemma CountedKeys(nodes: set<CallNode>, k: Counters)
    requires Counted(nodes, k)
    ensures k.Keys == nodes
  {
  }

  lemma CutWhole(nodes: set<CallNode>)
    ensures Counted(nodes, Falses(nodes))
  {
  }

  lemma OutedgesOf(c: CallNode, nodes: set<CallNode>, g: Graph)
    requires Linked(nodes, g) && c in nodes
    ensures g.Keys == nodes && c.outedges == g[c]
  {
  }

  lemma NotMarked(c: CallNode, nodes: set<CallNode>)
    requires c in nodes
    ensures c in Marked(nodes) <==> c.deleted
    ensures Marked(nodes) <= nodes
  {
  }

  lemma SpreadInvalidates(g: Graph, ins: Graph, c: CallNode, m0: set<CallNode>, m: set<CallNode>, k0: Counters,
                          k: Counters, list0: seq<CallNode>, list: seq<CallNode>, incomplete: set<CallNode>)
    requires c in k0 && c !in m0 && Spread(g, ins, c, m0, m, k0[c := k0[c] + 1], k, list0, list, incomplete)
    ensures Invalidated(g, ins, c, m0, m, k0, k, list0, list) && m - m0 !! incomplete
  {
  }

  lemma NothingInvalidated(g: Graph, ins: Graph, c: CallNode, m0: set<CallNode>, k0: Counters, list0: seq<CallNode>)
    requires c in k0 && c in m0
    ensures Invalidated(g, ins, c, m0, m0, k0, k0, list0, list0)
  {
  }

  lemma LastEdge(k: Counters, c: CallNode)
    requires c in k && k[c] == 1
    ensures c !in Zeros(k)
  {
  }

  lemma EdgeFalls(ins: Graph, c: CallNode, k0: Counters, k: Counters, d: set<CallNode>)
    requires c in k0 && k0[c] == 1 && Reported(ins, c, LowerOne(k0, c), k, d)
    ensures EdgeReported(ins, c, k0, k, d + {c})
  {
    hide Lowered, Least;
    ZerosOfOne(k0, c);
    assert d + {c} - {c} == d;
  }

  lemma EdgeStays(ins: Graph, c: CallNode, k0: Counters, k: Counters)
    requires c in k0 && k0[c] != 1 && k == LowerOne(k0, c)
    ensures EdgeReported(ins, c, k0, k, {})
  {
  }

  lemma FalsesKeys(nodes: set<CallNode>)
    ensures Falses(nodes).Keys == nodes
  {
  }

  lemma BlockedHere(g: Graph, c: CallNode, m0: set<CallNode>, incomplete: set<CallNode>)
    requires c in incomplete && c !in m0
    ensures Blocked(g, c, m0, incomplete)
  {
    ReachSelf(g, c);
  }

  lemma OutedgeIn(g: Graph, ins: Graph, c: CallNode, i: int, k: Counters, nodes: set<CallNode>)
    requires Mirrored(g, ins) && c in g && 0 <= i < |g[c]|
    ensures g[c][i] in g
  {
    assert g[c][i] in g[c];
  }

  lemma SpreadMore(g: Graph, ins: Graph, c: CallNode, m0: set<CallNode>, m: set<CallNode>, k0: Counters, k: Counters,
                   list0: seq<CallNode>, list: seq<CallNode>, incomplete: set<CallNode>)
    requires Spread(g, ins, c, m0, m, k0, k, list0, list, incomplete)
    ensures m0 + {c} <= m
  {
  }
}
