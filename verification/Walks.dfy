/** Depth-first walks over the call graph that visit calls and shift a counter for each edge they cross.
    Marking and unmarking walk from a call to its supporters, invalidation to its dependents; for the latter
    the two graphs change places in the lemmas. */
module Walks {
  import opened CallGraph

  ghost function Marked(nodes: set<CallNode>): set<CallNode>
    reads nodes`deleted
  {
    set n | n in nodes && n.deleted
  }

  type Counters = map<CallNode, int>

  /** What is left of counters in bit fields that hold `width` different values. */
  ghost function Cut(k: Counters, width: int): Counters
    requires width > 0
  {
    map n | n in k :: k[n] % width
  }

  lemma CutOne(k: Counters, c: CallNode, x: int, width: int)
    requires width > 0 && c in k
    ensures Cut(k[c := x], width) == Cut(k, width)[c := x % width]
  {
  }

  lemma CutStep(x: int, more: int, width: int)
    requires width == FalseWidth || width == OutWidth
    ensures (x % width + more) % width == (x + more) % width
  {
    if width == FalseWidth {
      assert (x % 0x4000 + more) % 0x4000 == (x + more) % 0x4000;
    } else {
      assert (x % 0x8000 + more) % 0x8000 == (x + more) % 0x8000;
    }
  }

  function Signed(up: bool, x: int): int {
    if up then x else -x
  }

  /** Every counter has gone up or down by one for each edge into `d`. */
  ghost predicate Shifted(g: Graph, before: Counters, now: Counters, up: bool, d: set<CallNode>) {
    && before.Keys == now.Keys == g.Keys
    && forall n :: n in g ==> now[n] == before[n] + Signed(up, Count(g[n], d))
  }

  /** As Shifted, but of the edges into one more call only those from `some` have been dealt with. */
  ghost predicate PartShifted(g: Graph, before: Counters, now: Counters, up: bool, d: set<CallNode>,
                              some: seq<CallNode>) {
    && before.Keys == now.Keys == g.Keys
    && forall n :: n in g ==> now[n] == before[n] + Signed(up, Count(g[n], d) + if n in some then 1 else 0)
  }

  lemma StartShift(g: Graph, before: Counters, up: bool)
    requires before.Keys == g.Keys
    ensures PartShifted(g, before, before, up, {}, []) && Shifted(g, before, before, up, {})
  {
    forall n | n in g
      ensures Count(g[n], {}) == 0
    {
      CountBound(g[n], {});
    }
  }

  lemma WholeShift(g: Graph, ins: Graph, before: Counters, now: Counters, up: bool, d: set<CallNode>, c: CallNode)
    requires Mirrored(g, ins) && c in g && c !in d
    requires PartShifted(g, before, now, up, d, ins[c])
    ensures Shifted(g, before, now, up, d + {c})
  {
    forall n | n in g
      ensures now[n] == before[n] + Signed(up, Count(g[n], d + {c}))
    {
      CountDisjoint(g[n], d, {c});
      CountSingle(g[n], c);
    }
  }

  lemma MoreShifted(g: Graph, before: Counters, mid: Counters, now: Counters, up: bool,
                    d: set<CallNode>, d2: set<CallNode>, some: seq<CallNode>)
    requires d !! d2 && PartShifted(g, before, mid, up, d, some) && Shifted(g, mid, now, up, d2)
    ensures PartShifted(g, before, now, up, d + d2, some)
  {
    forall n | n in g
      ensures now[n] == before[n] + Signed(up, Count(g[n], d + d2) + if n in some then 1 else 0)
    {
      CountDisjoint(g[n], d, d2);
    }
  }

  lemma OneShifted(g: Graph, before: Counters, now: Counters, up: bool, d: set<CallNode>, some: seq<CallNode>,
                   x: CallNode)
    requires PartShifted(g, before, now, up, d, some) && x in g && x !in some
    ensures PartShifted(g, before, now[x := now[x] + Signed(up, 1)], up, d, some + [x])
  {
  }

  lemma ShiftedKeys(g: Graph, before: Counters, now: Counters, up: bool, d: set<CallNode>, some: seq<CallNode>)
    requires PartShifted(g, before, now, up, d, some)
    ensures before.Keys == now.Keys == g.Keys
  {
  }

  /** Everything in `d` is supported only by calls in `m`. */
  ghost predicate ClosedBelow(ins: Graph, d: set<CallNode>, m: set<CallNode>) {
    forall n, x :: n in d && n in ins && x in ins[n] ==> x in m
  }

  ghost predicate Leading(g: Graph, d: set<CallNode>, c: CallNode) {
    forall n :: n in d ==> Reach(g, n, c)
  }

  /** The visited calls `m` in the middle of the visit of `c`, when `k` of its supporters have been handled and
      `m0` had been visited before. */
  ghost predicate WalkShape(g: Graph, ins: Graph, m: set<CallNode>, c: CallNode, k: int, m0: set<CallNode>)
    requires c in ins && 0 <= k <= |ins[c]|
  {
    && c !in m0 && m0 + {c} <= m
    && ClosedBelow(ins, m - m0 - {c}, m)
    && (forall i :: 0 <= i < k ==> ins[c][i] in m)
    && Leading(g, m - m0, c)
  }

  lemma StartWalk(g: Graph, ins: Graph, c: CallNode, m0: set<CallNode>)
    requires c in ins && c !in m0
    ensures WalkShape(g, ins, m0 + {c}, c, 0, m0)
  {
    ReachSelf(g, c);
    assert m0 + {c} - m0 - {c} == {};
  }

  lemma ShapeAfter(g: Graph, ins: Graph, m: set<CallNode>, d: set<CallNode>, c: CallNode, k: int, m0: set<CallNode>)
    requires Mirrored(g, ins) && c in g && 0 <= k < |ins[c]| && m !! d
    requires WalkShape(g, ins, m, c, k, m0) && ins[c][k] in m + d
    requires ClosedBelow(ins, d, m + d) && Leading(g, d, ins[c][k])
    ensures WalkShape(g, ins, m + d, c, k + 1, m0)
  {
    var c1 := ins[c][k];
    ReachSelf(g, c);
    ReachStep(g, c1, c, c);
    forall n | n in m + d - m0
      ensures Reach(g, n, c)
    {
      if n in d { ReachTrans(g, n, c1, c); }
    }
  }

  lemma EndWalk(g: Graph, ins: Graph, m: set<CallNode>, c: CallNode, m0: set<CallNode>)
    requires c in ins && WalkShape(g, ins, m, c, |ins[c]|, m0)
    ensures ClosedBelow(ins, m - m0, m) && Leading(g, m - m0, c)
  {
  }

  /** `list` is `before` with the calls of `d`, each once, put in front. */
  ghost predicate Listed(list: seq<CallNode>, before: seq<CallNode>, d: set<CallNode>) {
    && |before| <= |list| && list[|list| - |before|..] == before
    && Elements(list[..|list| - |before|]) == d && NoDuplicates(list[..|list| - |before|])
  }

  lemma ListedTwice(a: seq<CallNode>, b: seq<CallNode>, c: seq<CallNode>, d: set<CallNode>, d2: set<CallNode>)
    requires Listed(b, a, d) && Listed(c, b, d2) && d !! d2
    ensures Listed(c, a, d + d2)
  {
    var x, y := b[..|b| - |a|], c[..|c| - |b|];
    assert c == y + b && b == x + a;
    assert c[..|c| - |a|] == y + x;
    forall i, j | 0 <= i < j < |y + x|
      ensures (y + x)[i] != (y + x)[j]
    {
      if i < |y| && j >= |y| { assert (y + x)[i] in Elements(y) && x[j - |y|] in Elements(x); }
    }
    assert forall n :: n in y + x <==> n in y || n in x;
  }

  /** What a walk from `c` has done that raises a counter for each edge into a call it visits. */
  ghost predicate Walked(g: Graph, ins: Graph, c: CallNode, m0: set<CallNode>, m: set<CallNode>, k0: Counters,
                         k: Counters) {
    && m0 + {c} <= m <= m0 + g.Keys
    && ClosedBelow(ins, m - m0, m) && Leading(g, m - m0, c) && Shifted(g, k0, k, true, m - m0)
  }

  ghost predicate Walking(g: Graph, ins: Graph, c: CallNode, i: int, m0: set<CallNode>, m: set<CallNode>, k0: Counters,
                          k: Counters)
    requires c in ins && 0 <= i <= |ins[c]|
  {
    WalkShape(g, ins, m, c, i, m0) && m <= m0 + g.Keys && PartShifted(g, k0, k, true, m - m0 - {c}, ins[c][..i])
  }

  lemma WalkStarts(g: Graph, ins: Graph, c: CallNode, m0: set<CallNode>, k: Counters)
    requires Mirrored(g, ins) && c in g && c !in m0 && k.Keys == g.Keys
    ensures Walking(g, ins, c, 0, m0, m0 + {c}, k, k)
  {
    hide WalkShape, PartShifted;
    StartWalk(g, ins, c, m0);
    StartShift(g, k, true);
    assert m0 + {c} - m0 - {c} == {} && ins[c][..0] == [];
  }

  lemma WalkEdge(g: Graph, ins: Graph, c: CallNode, i: int, m0: set<CallNode>, m: set<CallNode>, k0: Counters,
                 k: Counters)
    requires Mirrored(g, ins) && c in g && 0 <= i < |ins[c]| && Walking(g, ins, c, i, m0, m, k0, k)
    ensures ins[c][i] in g && k.Keys == g.Keys
    ensures PartShifted(g, k0, k[ins[c][i] := k[ins[c][i]] + 1], true, m - m0 - {c}, ins[c][..i + 1])
  {
    var c1, d := ins[c][i], m - m0 - {c};
    ShiftedKeys(g, k0, k, true, d, ins[c][..i]);
    hide PartShifted;
    assert NoDuplicates(ins[c]) && c1 in ins[c];
    assert ins[c][..i] + [c1] == ins[c][..i + 1];
    OneShifted(g, k0, k, true, d, ins[c][..i], c1);
  }

  lemma WalkGoesOn(g: Graph, ins: Graph, c: CallNode, i: int, m0: set<CallNode>, m: set<CallNode>, m2: set<CallNode>,
                        k0: Counters, k: Counters, k1: Counters, k2: Counters)
    requires Mirrored(g, ins) && c in g && 0 <= i < |ins[c]| && Walking(g, ins, c, i, m0, m, k0, k)
    requires PartShifted(g, k0, k1, true, m - m0 - {c}, ins[c][..i + 1])
    requires Walked(g, ins, ins[c][i], m, m2, k1, k2)
    ensures Walking(g, ins, c, i + 1, m0, m2, k0, k2)
  {
    hide PartShifted, Shifted, ClosedBelow, Leading, Mirrored;
    var d := m2 - m;
    MirroredKeys(g, ins);
    assert m0 <= m <= m2 && c in m && c !in m0;
    assert m + d == m2 && m - m0 - {c} + d == m2 - m0 - {c};
    MoreShifted(g, k0, k1, k2, true, m - m0 - {c}, d, ins[c][..i + 1]);
    ShapeAfter(g, ins, m, d, c, i, m0);
  }

  lemma WalkEnds(g: Graph, ins: Graph, c: CallNode, m0: set<CallNode>, m: set<CallNode>, k0: Counters, k: Counters)
    requires Mirrored(g, ins) && c in g && Walking(g, ins, c, |ins[c]|, m0, m, k0, k)
    ensures Walked(g, ins, c, m0, m, k0, k)
  {
    hide PartShifted, Shifted, Mirrored;
    MirroredKeys(g, ins);
    EndWalk(g, ins, m, c, m0);
    assert ins[c][..|ins[c]|] == ins[c];
    WholeShift(g, ins, k0, k, true, m - m0 - {c}, c);
    assert m - m0 - {c} + {c} == m - m0;
  }

  lemma AlreadyVisited(g: Graph, ins: Graph, c: CallNode, m: set<CallNode>, k: Counters)
    requires c in m && k.Keys == g.Keys
    ensures Walked(g, ins, c, m, m, k, k)
  {
    hide Shifted, PartShifted;
    StartShift(g, k, true);
    assert m - m == {};
  }

  lemma WalkedMore(g: Graph, ins: Graph, c: CallNode, m0: set<CallNode>, m: set<CallNode>, k0: Counters, k: Counters)
    requires Walked(g, ins, c, m0, m, k0, k)
    ensures m0 + {c} <= m
  {
  }
}
