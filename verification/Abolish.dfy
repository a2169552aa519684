/** Abolishing an incrementally tabled call: which calls are deleted, and that the counters stay exact.

    The first phase marks everything that supports the call, lowering the edge counters; the second takes
    back the marks of calls that something unmarked still depends on; the third deletes what stays marked.
    The edges do not change during the first two phases, so their lemmas speak of the graph as a value: `g`
    maps each call to its dependents and `ins` to its supporters. */
module Abolish {
  import opened CallGraph
  import opened Walks

  ghost function Unmarked(nodes: set<CallNode>): set<CallNode>
    reads nodes`deleted
  {
    nodes - Marked(nodes)
  }

  ghost function Counts(nodes: set<CallNode>): Counters
    reads nodes`outcount
  {
    map n | n in nodes :: n.outcount
  }

  ghost predicate Linked(nodes: set<CallNode>, ins: Graph)
    reads nodes`inedges
  {
    ins.Keys == nodes && forall n :: n in nodes ==> n.inedges == ins[n]
  }

  /** `k` are the counters, but for what has wrapped round. */
  ghost predicate Tallied(nodes: set<CallNode>, k: Counters)
    reads nodes`outcount
  {
    k.Keys == nodes && Counts(nodes) == Cut(k, OutWidth)
  }

  lemma TalliedKeys(nodes: set<CallNode>, k: Counters)
    requires Tallied(nodes, k)
    ensures k.Keys == nodes
  {
  }

  lemma TalliedAt(nodes: set<CallNode>, k: Counters, c: CallNode)
    requires Tallied(nodes, k) && c in nodes
    ensures c in k && c.outcount == k[c] % OutWidth
  {
    assert Counts(nodes)[c] == c.outcount;
  }

  lemma InedgesOf(c: CallNode, nodes: set<CallNode>, ins: Graph)
    requires Linked(nodes, ins) && c in nodes
    ensures ins.Keys == nodes && c.inedges == ins[c]
  {
  }

  lemma GraphKeys(nodes: set<CallNode>)
    ensures Dependents(nodes).Keys == Supports(nodes).Keys == nodes
  {
  }

  lemma MarkedAt(c: CallNode, nodes: set<CallNode>)
    requires c in nodes
    ensures c in Marked(nodes) <==> c.deleted
    ensures c in Unmarked(nodes) <==> !c.deleted
    ensures Marked(nodes) <= nodes && Unmarked(nodes) == nodes - Marked(nodes)
  {
  }

  // ---------------------------------------------------------------- counting edges

  /** Counters have only been lowered, and none for an edge to a call outside `m`. */
  ghost predicate Slack(g: Graph, counts: Counters, m: set<CallNode>) {
    counts.Keys == g.Keys && forall n :: n in g ==> counts[n] <= |g[n]| <= counts[n] + Count(g[n], m)
  }

  lemma StillSlack(g: Graph, ins: Graph, before: Counters, now: Counters, m0: set<CallNode>, d: set<CallNode>,
                   c: CallNode, k: int)
    requires Mirrored(g, ins) && c in g && 0 <= k <= |ins[c]|
    requires m0 !! d && c !in m0 && c !in d
    requires PartShifted(g, before, now, false, d, ins[c][..k]) && Slack(g, before, m0)
    ensures Slack(g, now, m0 + d + {c})
  {
    forall n | n in g
      ensures now[n] <= |g[n]| <= now[n] + Count(g[n], m0 + d + {c})
    {
      if n in ins[c][..k] { assert n in ins[c]; }
      CountDisjoint(g[n], m0, d);
      CountDisjoint(g[n], m0 + d, {c});
      CountSingle(g[n], c);
    }
  }

  // ---------------------------------------------------------------- the shape of a marking

  /** All dependents of `n` that its counter shows are in `m`. */
  ghost predicate NeedsNone(g: Graph, n: CallNode, m: set<CallNode>)
    requires n in g
  {
    |g[n]| % OutWidth <= Count(g[n], m)
  }

  lemma CountMore(out: seq<CallNode>, a: set<CallNode>, b: set<CallNode>)
    requires a <= b
    ensures Count(out, a) <= Count(out, b)
  {
    CountDisjoint(out, a, b - a);
    assert a + (b - a) == b;
  }

  /** The calls `d` marked lately are on the marked list; those off the assumption list seem to have dependents
      in `m` only. */
  ghost predicate Noted(g: Graph, d: set<CallNode>, m: set<CallNode>, marked: seq<CallNode>, marked0: seq<CallNode>,
                        assumptions: seq<CallNode>, assumptions0: seq<CallNode>) {
    && Listed(marked, marked0, d)
    && Elements(assumptions0) <= Elements(assumptions) <= Elements(assumptions0) + d
    && forall n :: n in d && n in g && n !in assumptions ==> NeedsNone(g, n, m)
  }

  lemma NotedFirst(g: Graph, c: CallNode, m: set<CallNode>, counts: Counters, marked: seq<CallNode>,
                   assumptions: seq<CallNode>, assumptions0: seq<CallNode>)
    requires c in g && Slack(g, counts, m)
    requires assumptions == if counts[c] % OutWidth != 0 then [c] + assumptions0 else assumptions0
    ensures Noted(g, {c}, m + {c}, [c] + marked, marked, assumptions, assumptions0)
  {
    CountBound(g[c], m);
    CountMore(g[c], m, m + {c});
    assert counts[c] % 0x8000 == 0 ==> |g[c]| % 0x8000 <= |g[c]| - counts[c];
    assert ([c] + marked)[1..] == marked && ([c] + marked)[..1] == [c];
    if assumptions != assumptions0 { assert assumptions[0] == c; }
  }

  lemma NothingNoted(g: Graph, m: set<CallNode>, marked: seq<CallNode>, assumptions: seq<CallNode>)
    ensures Noted(g, {}, m, marked, marked, assumptions, assumptions)
  {
    assert marked[..0] == [];
  }

  lemma NotedTwice(g: Graph, d: set<CallNode>, d2: set<CallNode>, m: set<CallNode>, m2: set<CallNode>,
                   marked0: seq<CallNode>, marked: seq<CallNode>, marked2: seq<CallNode>,
                   as0: seq<CallNode>, as1: seq<CallNode>, as2: seq<CallNode>)
    requires Noted(g, d, m, marked, marked0, as1, as0) && Noted(g, d2, m2, marked2, marked, as2, as1)
    requires d !! d2 && m <= m2
    ensures Noted(g, d + d2, m2, marked2, marked0, as2, as0)
  {
    ListedTwice(marked0, marked, marked2, d, d2);
    forall n | n in d + d2 && n in g && n !in as2
      ensures NeedsNone(g, n, m2)
    {
      assert n !in Elements(as2);
      CountMore(g[n], m, m2);
    }
  }

  // ---------------------------------------------------------------- the second phase

  /** Every counter is the number of edges to calls outside `d`. */
  ghost predicate Exact(g: Graph, counts: Counters, d: set<CallNode>) {
    counts.Keys == g.Keys && forall n :: n in g ==> counts[n] == |g[n]| - Count(g[n], d)
  }

  /** Whether the counter of `n` shows that calls outside `m0` depend on it, when those in `m0` are not counted. */
  ghost predicate Shows(g: Graph, n: CallNode, m0: set<CallNode>) {
    n in g && (|g[n]| - Count(g[n], m0)) % OutWidth != 0
  }

  ghost predicate Rescued(g: Graph, n: CallNode, m0: set<CallNode>) {
    exists u :: u in m0 && Reach(g, n, u) && Shows(g, u, m0)
  }

  /** The marks `d`, once the calls in `checked` have been looked at: what has lost its mark since `m0` supports a
      call whose counter shows a dependent outside `m0`, and supports nothing marked; the counter of a checked call
      that keeps its mark shows none. */
  ghost predicate Checking(g: Graph, ins: Graph, m0: set<CallNode>, d: set<CallNode>, checked: set<CallNode>) {
    && d <= m0 <= g.Keys
    && (forall n :: n in m0 - d ==> Rescued(g, n, m0))
    && (forall n, x :: n in m0 - d && n in ins && x in ins[n] ==> x !in d)
    && (forall n :: n in checked && n in d ==> !Shows(g, n, m0))
  }

  /** Of the calls in `m0`, those that depend on a marked one are marked themselves. */
  lemma DependentsMarked(g: Graph, ins: Graph, m0: set<CallNode>, d: set<CallNode>, checked: set<CallNode>, n: CallNode)
    requires Mirrored(g, ins) && Checking(g, ins, m0, d, checked) && n in d
    ensures Count(g[n], d) == Count(g[n], m0)
    ensures forall y :: y in g[n] && y in m0 ==> y in d
  {
    hide Count, NoDuplicates, Rescued, Shows;
    forall y | y in g[n]
      ensures y in d <==> y in m0
    {
      BothWays(g, ins, n, y);
    }
    CountSame(g[n], d, m0);
  }

  lemma CheckedUnmarked(g: Graph, ins: Graph, counts: Counters, m0: set<CallNode>, d: set<CallNode>,
                        checked: set<CallNode>, c: CallNode, d2: set<CallNode>)
    requires Mirrored(g, ins) && Checking(g, ins, m0, d, checked) && c in d && d2 <= d && c !in d2
    requires Exact(g, counts, d) && counts[c] % OutWidth != 0
    requires ClosedBelow(ins, d - d2, g.Keys - d2) && Leading(g, d - d2, c)
    ensures Checking(g, ins, m0, d2, checked + {c})
  {
    DependentsMarked(g, ins, m0, d, checked, c);
    assert Shows(g, c, m0);
    hide Mirrored, Shows, Count;
    forall n | n in m0 - d2
      ensures Rescued(g, n, m0)
    {
    }
  }

  lemma CheckedKept(g: Graph, ins: Graph, counts: Counters, m0: set<CallNode>, d: set<CallNode>, checked: set<CallNode>,
                    c: CallNode)
    requires Mirrored(g, ins) && Checking(g, ins, m0, d, checked) && Exact(g, counts, d) && c in g
    requires c in d ==> counts[c] % OutWidth == 0
    ensures Checking(g, ins, m0, d, checked + {c})
  {
    hide Mirrored, Rescued, Count;
    if c in d { DependentsMarked(g, ins, m0, d, checked, c); }
  }

  lemma StillExact(g: Graph, before: Counters, now: Counters, d: set<CallNode>, d2: set<CallNode>)
    requires Exact(g, before, d) && d2 <= d && Shifted(g, before, now, true, d - d2)
    ensures Exact(g, now, d2)
  {
    forall n | n in g
      ensures now[n] == |g[n]| - Count(g[n], d2)
    {
      CountDisjoint(g[n], d2, d - d2);
      assert d2 + (d - d2) == d;
    }
  }

  function Without(s: seq<CallNode>, c: CallNode): seq<CallNode> {
    if s == [] then [] else if s[0] == c then Without(s[1..], c) else [s[0]] + Without(s[1..], c)
  }

  lemma {:induction false} WithoutFacts(s: seq<CallNode>, c: CallNode)
    ensures forall n :: n in Without(s, c) <==> n in s && n != c
    ensures NoDuplicates(s) ==> NoDuplicates(Without(s, c))
    ensures c !in s ==> Without(s, c) == s
  {
    if s != [] {
      WithoutFacts(s[1..], c);
      assert s == [s[0]] + s[1..];
      assert forall n :: n in s <==> n == s[0] || n in s[1..];
      if NoDuplicates(s) {
        assert NoDuplicates(s[1..]) && s[0] !in s[1..];
        assert s[0] != c ==> s[0] !in Without(s[1..], c);
      }
    }
  }

  /** The calls that may go: they support `p`, and so does everything that depends on them. */
  ghost function Abolished(g: Graph, p: CallNode): set<CallNode> {
    set n | n in Supporters(g, p) && forall y :: y in g && Reach(g, n, y) ==> y in Supporters(g, p)
  }

  /** The first phase marks exactly the supporters. */
  lemma MarkedSupporters(g: Graph, ins: Graph, p: CallNode, m0: set<CallNode>)
    requires Mirrored(g, ins) && p in m0 && m0 <= g.Keys
    requires ClosedBelow(ins, m0, m0) && Leading(g, m0, p)
    ensures m0 == Supporters(g, p)
  {
    forall n | n in Supporters(g, p)
      ensures n in m0
    {
      ComesFromInside(g, n, p, m0);
    }
  }

  /** What the first two phases decide: `d` are to go, and the calls in `checked` have been looked at again. */
  ghost predicate Decided(g: Graph, ins: Graph, p: CallNode, d: set<CallNode>, checked: set<CallNode>) {
    && Checking(g, ins, Supporters(g, p), d, checked)
    && forall n :: n in Supporters(g, p) && n !in checked ==> NeedsNone(g, n, Supporters(g, p))
  }

  /** No counter wraps round. */
  ghost predicate Few(g: Graph) {
    forall n :: n in g ==> |g[n]| < OutWidth
  }

  /** A call that has kept its mark supports only marked calls. */
  lemma KeptAbove(g: Graph, ins: Graph, p: CallNode, d: set<CallNode>, checked: set<CallNode>, n: CallNode)
    requires Mirrored(g, ins) && Decided(g, ins, p, d, checked) && n in d && n in g && |g[n]| < OutWidth
    ensures forall y :: y in g[n] ==> y in d
  {
    DependentsMarked(g, ins, Supporters(g, p), d, checked, n);
    CountBound(g[n], Supporters(g, p));
  }

  lemma KeptMayGo(g: Graph, p: CallNode, d: set<CallNode>, n: CallNode)
    requires ClosedAbove(g, d) && d <= Supporters(g, p) && n in d
    ensures n in Abolished(g, p)
  {
    forall y | y in g && Reach(g, n, y)
      ensures y in Supporters(g, p)
    {
      StaysInside(g, n, y, d);
    }
  }

  /** A call rescued has a dependent, direct or indirect, that does not support `p`. */
  lemma RescuedStays(g: Graph, ins: Graph, p: CallNode, n: CallNode)
    requires Mirrored(g, ins) && Rescued(g, n, Supporters(g, p))
    ensures n !in Abolished(g, p)
  {
    var m0 := Supporters(g, p);
    var u :| u in m0 && Reach(g, n, u) && Shows(g, u, m0);
    CountBound(g[u], m0);
    var y :| y in g[u] && y !in m0;
    BothWays(g, ins, u, y);
    ReachSelf(g, y);
    ReachStep(g, u, y, y);
    ReachTrans(g, n, u, y);
  }

  /** The second phase leaves exactly the calls that may go, and nothing depends on them from outside, if no call
      has more dependents than can be counted. */
  lemma KeptMarks(g: Graph, ins: Graph, p: CallNode, d: set<CallNode>, checked: set<CallNode>)
    requires Mirrored(g, ins) && Decided(g, ins, p, d, checked) && Few(g)
    ensures d == Abolished(g, p) && ClosedAbove(g, d)
  {
    hide Mirrored, Rescued, Shows, Reach;
    var m0 := Supporters(g, p);
    assert d <= m0 <= g.Keys && forall n :: n in m0 - d ==> Rescued(g, n, m0);
    forall n, y | n in d && n in g && y in g[n]
      ensures y in d
    {
      KeptAbove(g, ins, p, d, checked, n);
    }
    forall n | n in d
      ensures n in Abolished(g, p)
    {
      KeptMayGo(g, p, d, n);
    }
    forall n | n in Abolished(g, p)
      ensures n in d
    {
      if n in m0 - d { RescuedStays(g, ins, p, n); }
    }
  }

  /** If the dependents outside are multiples of 32768 wherever there are any, none is noticed. */
  lemma NoneNoticed(g: Graph, ins: Graph, p: CallNode, d: set<CallNode>, checked: set<CallNode>)
    requires Decided(g, ins, p, d, checked) && forall u :: u in Supporters(g, p) ==> !Shows(g, u, Supporters(g, p))
    ensures d == Supporters(g, p)
  {
    forall n | n in Supporters(g, p)
      ensures n in d
    {
      assert n !in d ==> Rescued(g, n, Supporters(g, p));
    }
  }

  /** A call outside the supporters depends on `u`. */
  ghost predicate UsedOutside(g: Graph, u: CallNode, m0: set<CallNode>) {
    u in g && exists y :: y in g[u] && y !in m0
  }

  /** Every supporter on which a call outside depends, facts excepted, is or leads to one whose counter shows such a
      call: one the number of whose dependents outside is no multiple of 32768. */
  ghost predicate AllNoticed(g: Graph, p: CallNode) {
    forall u :: u in Supporters(g, p) && !u.fact && UsedOutside(g, u, Supporters(g, p)) ==>
      Rescued(g, u, Supporters(g, p))
  }

  // What the third phase demands of the calls that are to go.
  ghost predicate NoneShown(g: Graph, d: set<CallNode>) {
    forall c :: c in Gone(d) ==> c in g && (|g[c]| - Count(g[c], d)) % OutWidth == 0
  }

  lemma NonFact(g: Graph, ins: Graph, x: CallNode, y: CallNode)
    requires Sound(g, ins) && x in g && y in g[x]
    ensures !y.fact && y in g
  {
    BothWays(g, ins, x, y);
  }

  lemma NotShown(g: Graph, ins: Graph, p: CallNode, d: set<CallNode>, checked: set<CallNode>, u: CallNode)
    requires Mirrored(g, ins) && Decided(g, ins, p, d, checked) && NoneShown(g, d) && u in Gone(d)
    ensures !Shows(g, u, Supporters(g, p))
  {
    DependentsMarked(g, ins, Supporters(g, p), d, checked, u);
  }

  /** If the abolition succeeds, a supporter that is no fact loses its mark exactly if it leads to a call whose counter
      shows a dependent outside. */
  lemma KeptIffNotRescued(g: Graph, ins: Graph, p: CallNode, d: set<CallNode>, checked: set<CallNode>, n: CallNode)
    requires Sound(g, ins) && Decided(g, ins, p, d, checked) && NoneShown(g, d)
    requires n in Supporters(g, p) && !n.fact
    ensures n in d <==> !Rescued(g, n, Supporters(g, p))
  {
    hide Mirrored, Count, NoneShown, Shows;
    var m0 := Supporters(g, p);
    if n in d && Rescued(g, n, m0) {
      var u :| u in m0 && Reach(g, n, u) && Shows(g, u, m0);
      var s := set x | x in g && !x.fact && (x in d || x !in m0);
      forall x, y | x in s && y in g[x]
        ensures y in s
      {
        NonFact(g, ins, x, y);
        if x in d {
          DependentsMarked(g, ins, m0, d, checked, x);
        } else if y in m0 {
          ReachStep(g, x, y, p);
        }
      }
      StaysInside(g, n, u, s);
      NotShown(g, ins, p, d, checked, u);
    }
  }

  /** If the abolition succeeds, the calls that go are the right ones exactly if every dependent outside is noticed. */
  lemma RightIff(g: Graph, ins: Graph, p: CallNode, d: set<CallNode>, checked: set<CallNode>)
    requires Sound(g, ins) && Decided(g, ins, p, d, checked) && NoneShown(g, d)
    ensures Gone(d) == Gone(Abolished(g, p)) <==> AllNoticed(g, p)
  {
    hide Mirrored, Rescued, Reach, NoneShown, Count;
    var m0 := Supporters(g, p);
    assert d <= m0 <= g.Keys;
    if Gone(d) == Gone(Abolished(g, p)) {
      forall u | u in m0 && !u.fact && UsedOutside(g, u, m0)
        ensures Rescued(g, u, m0)
      {
        OutsideStays(g, ins, p, u);
        assert u !in Gone(d);
      }
    }
    if AllNoticed(g, p) {
      GoneClosed(g, ins, p, d, checked);
      forall n | n in m0 && !n.fact
        ensures n in d <==> n in Abolished(g, p)
      {
        if n in d { KeptMayGo(g, p, Gone(d), n); } else { RescuedStays(g, ins, p, n); }
      }
    }
  }

  lemma GoneClosed(g: Graph, ins: Graph, p: CallNode, d: set<CallNode>, checked: set<CallNode>)
    requires Sound(g, ins) && Decided(g, ins, p, d, checked) && NoneShown(g, d)
    requires AllNoticed(g, p)
    ensures ClosedAbove(g, Gone(d))
  {
    hide Mirrored, Rescued, Reach, NoneShown, Count;
    var m0 := Supporters(g, p);
    forall n, y | n in Gone(d) && n in g && y in g[n]
      ensures y in Gone(d)
    {
      NonFact(g, ins, n, y);
      DependentsMarked(g, ins, m0, d, checked, n);
      KeptIffNotRescued(g, ins, p, d, checked, n);
      assert y !in m0 ==> UsedOutside(g, n, m0);
    }
  }

  lemma OutsideStays(g: Graph, ins: Graph, p: CallNode, u: CallNode)
    requires Mirrored(g, ins) && UsedOutside(g, u, Supporters(g, p))
    ensures u !in Abolished(g, p)
  {
    var y :| y in g[u] && y !in Supporters(g, p);
    BothWays(g, ins, u, y);
    ReachSelf(g, y);
    ReachStep(g, u, y, y);
  }

  // A call that `others` depend on.
  ghost function Star(p: CallNode, others: seq<CallNode>): Graph {
    map n | n in Elements(others) + {p} :: if n == p then others else []
  }

  ghost function StarIns(p: CallNode, others: seq<CallNode>): Graph {
    map n | n in Elements(others) + {p} :: if n == p then [] else [p]
  }

  lemma StarSound(p: CallNode, others: seq<CallNode>)
    requires NoDuplicates(others) && p !in others && !p.fact && forall n :: n in others ==> !n.fact
    ensures Sound(Star(p, others), StarIns(p, others))
  {
    StarMirrored(p, others);
    hide Mirrored;
  }

  lemma StarMirrored(p: CallNode, others: seq<CallNode>)
    requires NoDuplicates(others) && p !in others
    ensures Mirrored(Star(p, others), StarIns(p, others))
  {
    var g, ins := Star(p, others), StarIns(p, others);
    forall n, m | n in ins && m in ins[n]
      ensures m in g && n in g[m]
    {
      assert n in Elements(others) && m == p;
    }
    forall n, m | n in g && m in g[n]
      ensures m in ins && n in ins[m]
    {
      assert m in Elements(others) && n == p;
    }
  }

  lemma StarReach(p: CallNode, others: seq<CallNode>, a: CallNode, n: nat)
    requires ReachIn(Star(p, others), a, p, n)
    ensures a == p
  {
    if n > 0 {
      var c :| c in Star(p, others)[a] && ReachIn(Star(p, others), c, p, n - 1);
    }
  }

  lemma StarSupporters(p: CallNode, others: seq<CallNode>)
    requires p !in others
    ensures Supporters(Star(p, others), p) == {p}
  {
    var g := Star(p, others);
    ReachSelf(g, p);
    forall a | a in Supporters(g, p)
      ensures a == p
    {
      var n: nat :| ReachIn(g, a, p, n);
      StarReach(p, others, a, n);
    }
  }

  /** Abolishing a call on which 32768 others depend: its counter shows none, so it goes. */
  lemma StarGoes(p: CallNode, others: seq<CallNode>, d: set<CallNode>, checked: set<CallNode>)
    requires |others| == OutWidth && p !in others
    requires Decided(Star(p, others), StarIns(p, others), p, d, checked)
    ensures d == {p} && p !in Abolished(Star(p, others), p)
  {
    var g, ins := Star(p, others), StarIns(p, others);
    StarSupporters(p, others);
    CountBound(g[p], {p});
    assert forall n :: n in g[p] ==> n !in {p};
    NoneNoticed(g, ins, p, d, checked);
    var y := others[0];
    assert y in others && y in Elements(others) && y in g && y in g[p];
    ReachSelf(g, y);
    ReachStep(g, p, y, y);
  }

  lemma StarDecided(p: CallNode, others: seq<CallNode>)
    requires |others| == OutWidth && p !in others
    ensures Decided(Star(p, others), StarIns(p, others), p, {p}, {})
  {
    StarSupporters(p, others);
  }

  /** The right calls go in all graphs with at most `bound` dependents for each call if and only if `bound` is less
      than 32768. */
  lemma RightIffFew(bound: int, p: CallNode, others: seq<CallNode>)
    requires |others| == OutWidth && NoDuplicates(others) && p !in others
    requires !p.fact && forall n :: n in others ==> !n.fact
    ensures (forall g, ins, q, d, checked ::
               Sound(g, ins) && q in g && Decided(g, ins, q, d, checked) && (forall n :: n in g ==> |g[n]| <= bound) ==>
                 d == Abolished(g, q)) <==>
            bound < OutWidth
  {
    if bound < OutWidth {
      forall g, ins, q, d, checked |
        Sound(g, ins) && q in g && Decided(g, ins, q, d, checked) && forall n :: n in g ==> |g[n]| <= bound
        ensures d == Abolished(g, q)
      {
        hide Decided, Mirrored;
        KeptMarks(g, ins, q, d, checked);
      }
    } else {
      var g, ins := Star(p, others), StarIns(p, others);
      StarSound(p, others);
      StarDecided(p, others);
      StarGoes(p, others, {p}, {});
      assert forall n :: n in g ==> |g[n]| <= bound;
      hide Star, StarIns, Sound, Decided, Abolished;
      assert Sound(g, ins) && p in g && Decided(g, ins, p, {p}, {}) && {p} != Abolished(g, p);
    }
  }

  // ---------------------------------------------------------------- the third phase

  ghost predicate ClosedAbove(g: Graph, d: set<CallNode>) {
    forall n, y :: n in d && n in g && y in g[n] ==> y in d
  }

  /** Marked calls go, except that facts stay. */
  ghost function Gone(d: set<CallNode>): set<CallNode> {
    set n | n in d && !n.fact
  }

  ghost function Doomed(list: seq<CallNode>, d: set<CallNode>): set<CallNode> {
    set n | n in list && n in d && !n.fact
  }

  lemma DoomedNext(list: seq<CallNode>, d: set<CallNode>, i: int)
    requires 0 <= i < |list| && NoDuplicates(list)
    ensures list[i] !in Doomed(list[..i], d)
    ensures Doomed(list[..i + 1], d) ==
            if list[i] in d && !list[i].fact then Doomed(list[..i], d) + {list[i]} else Doomed(list[..i], d)
  {
    assert list[..i + 1] == list[..i] + [list[i]];
  }

  lemma NoneDoomed(list: seq<CallNode>, d: set<CallNode>)
    ensures Doomed(list[..0], d) == {}
  {
  }

  /** The calls of `s` outside `gone`, in order. */
  ghost function Filter(s: seq<CallNode>, gone: set<CallNode>): seq<CallNode> {
    if s == [] then [] else if s[0] in gone then Filter(s[1..], gone) else [s[0]] + Filter(s[1..], gone)
  }

  lemma {:induction false} FilterFacts(s: seq<CallNode>, gone: set<CallNode>)
    ensures forall n :: n in Filter(s, gone) <==> n in s && n !in gone
    ensures NoDuplicates(s) ==> NoDuplicates(Filter(s, gone))
    ensures |Filter(s, gone)| == |s| - Count(s, gone)
    ensures gone == {} ==> Filter(s, gone) == s
  {
    if s != [] {
      FilterFacts(s[1..], gone);
      assert s == [s[0]] + s[1..];
      assert forall n :: n in s <==> n == s[0] || n in s[1..];
      if NoDuplicates(s) {
        assert NoDuplicates(s[1..]) && s[0] !in s[1..];
      }
    }
  }

  lemma {:induction false} FilterMore(s: seq<CallNode>, gone: set<CallNode>, c: CallNode)
    ensures Filter(s, gone + {c}) == Without(Filter(s, gone), c)
    ensures c !in s ==> Filter(s, gone + {c}) == Filter(s, gone)
  {
    if s != [] {
      assert s == [s[0]] + s[1..];
      FilterMore(s[1..], gone, c);
      var rest := Filter(s[1..], gone);
      assert ([s[0]] + rest)[1..] == rest;
    }
  }

  /** The edges once the calls in `gone` have been taken out of all edge tables. */
  ghost predicate WithoutEdges(g: Graph, now: Graph, gone: set<CallNode>) {
    now.Keys == g.Keys && forall x :: x in g ==> now[x] == Filter(g[x], gone)
  }

  ghost predicate WithoutInedges(ins: Graph, now: Graph, gone: set<CallNode>) {
    now.Keys == ins.Keys && forall n :: n in ins ==> now[n] == if n in gone then [] else ins[n]
  }

  ghost function Restrict(g: Graph, keep: set<CallNode>): Graph {
    map n | n in g && n in keep :: g[n]
  }

  ghost predicate Trimmed(before: seq<CallNode>, now: seq<CallNode>, gone: set<CallNode>) {
    && NoDuplicates(now)
    && (forall y :: y in now ==> y in before && y !in gone)
    && (forall y :: y in before && y !in gone ==> y in now)
  }

  lemma SurvivingEdges(out: seq<CallNode>, d: set<CallNode>)
    requires NoDuplicates(out) && forall y :: y in out && y in d ==> !y.fact
    ensures Trimmed(out, Filter(out, Gone(d)), Gone(d))
    ensures |out| - Count(out, d) == |Filter(out, Gone(d))| - Count(Filter(out, Gone(d)), {})
  {
    hide Filter, Count;
    FilterFacts(out, Gone(d));
    CountBound(Filter(out, Gone(d)), {});
    CountSame(out, d, Gone(d));
    assert Trimmed(out, Filter(out, Gone(d)), Gone(d));
  }

  lemma SurvivorAt(g: Graph, ins: Graph, counts: Counters, d: set<CallNode>, g2: Graph, n: CallNode)
    requires Sound(g, ins) && ClosedAbove(g, d) && Exact(g, counts, d) && WithoutEdges(g, g2, Gone(d)) && n in g
    ensures Trimmed(g[n], g2[n], Gone(d)) && counts[n] == |g2[n]| - Count(g2[n], {})
  {
    hide Filter, Count, NoDuplicates, Trimmed;
    forall y | y in g[n] && y in d
      ensures !y.fact
    {
      assert n in ins[y];
    }
    SurvivingEdges(g[n], d);
  }

  lemma EdgeSurvives(g: Graph, ins: Graph, d: set<CallNode>, n: CallNode, m: CallNode)
    requires Sound(g, ins) && ClosedAbove(g, d) && m !in Gone(d)
    ensures n in g && m in g[n] ==> m in g && n in ins[m]
    ensures m in g && n in ins[m] ==> n in g && m in g[n] && n !in Gone(d)
  {
    hide NoDuplicates;
    if m in g && n in ins[m] {
      assert !m.fact && m in g[n];
    }
  }

  lemma BackedForward(g: Graph, ins: Graph, d: set<CallNode>, g3: Graph, ins3: Graph)
    requires Sound(g, ins) && ClosedAbove(g, d)
    requires forall n :: n in g3 ==> n in g && Trimmed(g[n], g3[n], Gone(d))
    requires ins3.Keys == g.Keys - Gone(d) && forall n :: n in ins3 ==> ins3[n] == ins[n]
    ensures Backed(g3, ins3)
  {
    hide Mirrored, ClosedAbove, Gone;
    forall n, m | n in g3 && m in g3[n]
      ensures m in ins3 && n in ins3[m]
    {
      EdgeSurvives(g, ins, d, n, m);
    }
  }

  lemma BackedBackward(g: Graph, ins: Graph, d: set<CallNode>, g3: Graph, ins3: Graph)
    requires Sound(g, ins) && ClosedAbove(g, d)
    requires ins3.Keys == g.Keys - Gone(d) && forall n :: n in ins3 ==> ins3[n] == ins[n]
    requires g3.Keys == g.Keys - Gone(d) && forall n :: n in g3 ==> Trimmed(g[n], g3[n], Gone(d))
    ensures Backed(ins3, g3)
  {
    hide Mirrored, ClosedAbove, Gone;
    forall n, m | n in ins3 && m in ins3[n]
      ensures m in g3 && n in g3[m]
    {
      EdgeSurvives(g, ins, d, m, n);
    }
  }

  lemma SurvivorsSound(g: Graph, ins: Graph, d: set<CallNode>, g2: Graph, ins2: Graph)
    requires Sound(g, ins) && ClosedAbove(g, d) && g2.Keys == g.Keys && WithoutInedges(ins, ins2, Gone(d))
    requires forall n :: n in g ==> Trimmed(g[n], g2[n], Gone(d))
    ensures Sound(Restrict(g2, g.Keys - Gone(d)), Restrict(ins2, g.Keys - Gone(d)))
  {
    hide NoDuplicates, Backed;
    var keep := g.Keys - Gone(d);
    var g3, ins3 := Restrict(g2, keep), Restrict(ins2, keep);
    forall n | n in g3
      ensures n in g && Trimmed(g[n], g3[n], Gone(d))
    {
      assert g3[n] == g2[n];
    }
    BackedForward(g, ins, d, g3, ins3);
    BackedBackward(g, ins, d, g3, ins3);
  }

  ghost function Recount(counts: Counters, keep: set<CallNode>): Counters {
    map n | n in counts && n in keep :: counts[n]
  }

  /** The graph that is left is sound, and its counters are exact again. */
  lemma Survivors(g: Graph, ins: Graph, counts: Counters, d: set<CallNode>, g2: Graph, ins2: Graph)
    requires Sound(g, ins) && ClosedAbove(g, d) && Exact(g, counts, d)
    requires WithoutEdges(g, g2, Gone(d)) && WithoutInedges(ins, ins2, Gone(d))
    ensures var keep := g.Keys - Gone(d);
            Sound(Restrict(g2, keep), Restrict(ins2, keep)) && Exact(Restrict(g2, keep), Recount(counts, keep), {})
  {
    hide Filter, Count, NoDuplicates, Backed, Trimmed;
    forall n | n in g
      ensures Trimmed(g[n], g2[n], Gone(d)) && counts[n] == |g2[n]| - Count(g2[n], {})
    {
      SurvivorAt(g, ins, counts, d, g2, n);
    }
    SurvivorsSound(g, ins, d, g2, ins2);
  }

  // ---------------------------------------------------------------- deleting edges

  /** The edges while the call `c` is being taken out of edge tables: it is gone from those of `some`. */
  ghost predicate PartDeleted(g: Graph, now: Graph, gone: set<CallNode>, c: CallNode, some: seq<CallNode>) {
    now.Keys == g.Keys && forall x :: x in g ==> now[x] == Filter(g[x], if x in some then gone + {c} else gone)
  }

  lemma DeletingStarts(g: Graph, now: Graph, gone: set<CallNode>, c: CallNode)
    requires WithoutEdges(g, now, gone)
    ensures PartDeleted(g, now, gone, c, [])
  {
  }

  lemma DeletingStep(g: Graph, ins: Graph, now: Graph, gone: set<CallNode>, c: CallNode, i: int)
    requires Sound(g, ins) && c in g && c !in gone && 0 <= i < |ins[c]| && PartDeleted(g, now, gone, c, ins[c][..i])
    ensures ins[c][i] in g && ins[c][i] in now && c in now[ins[c][i]]
    ensures PartDeleted(g, now[ins[c][i] := Without(now[ins[c][i]], c)], gone, c, ins[c][..i + 1])
  {
    hide Filter, Without;
    var x := ins[c][i];
    assert x in ins[c] && c in g[x] && x !in ins[c][..i];
    FilterFacts(g[x], gone);
    FilterMore(g[x], gone, c);
    assert ins[c][..i + 1] == ins[c][..i] + [x];
  }

  lemma DeletingEnds(g: Graph, ins: Graph, now: Graph, gone: set<CallNode>, c: CallNode)
    requires Sound(g, ins) && c in g && PartDeleted(g, now, gone, c, ins[c])
    ensures WithoutEdges(g, now, gone + {c})
  {
    hide Filter;
    forall x | x in g
      ensures now[x] == Filter(g[x], gone + {c})
    {
      FilterMore(g[x], gone, c);
    }
  }

  lemma NothingDeleted(g: Graph, ins: Graph)
    requires g.Keys == ins.Keys
    ensures WithoutEdges(g, g, {}) && WithoutInedges(ins, ins, {})
  {
    forall x | x in g
      ensures Filter(g[x], {}) == g[x]
    {
      FilterFacts(g[x], {});
    }
  }

  /** A call about to be deleted supports nothing that stays. */
  lemma GoneSupportsNothing(g: Graph, ins: Graph, counts: Counters, d: set<CallNode>, c: CallNode)
    requires Sound(g, ins) && ClosedAbove(g, d) && Exact(g, counts, d) && c in g && c in Gone(d)
    ensures counts[c] == 0 && Filter(g[c], Gone(d)) == []
  {
    hide Filter, Count;
    CountBound(g[c], d);
    forall y | y in g[c]
      ensures y in Gone(d)
    {
      assert c in ins[y];
    }
    CountBound(g[c], Gone(d));
    FilterFacts(g[c], Gone(d));
  }

  lemma InedgesGone(ins: Graph, now: Graph, gone: set<CallNode>, c: CallNode)
    requires WithoutInedges(ins, now, gone) && c in ins
    ensures WithoutInedges(ins, now[c := []], gone + {c})
  {
  }

  // ---------------------------------------------------------------- the state of the call table

  /** What marking from `c` has done: `m0`, `k0` and so on are the values before it. */
  ghost predicate MarkedFrom(g: Graph, ins: Graph, c: CallNode, m0: set<CallNode>, m: set<CallNode>, k0: Counters,
                             k: Counters, marked0: seq<CallNode>, marked: seq<CallNode>, assumptions0: seq<CallNode>,
                             assumptions: seq<CallNode>) {
    && m0 + {c} <= m <= m0 + g.Keys
    && ClosedBelow(ins, m - m0, m) && Leading(g, m - m0, c)
    && Shifted(g, k0, k, false, m - m0) && Slack(g, k, m)
    && Noted(g, m - m0, m, marked, marked0, assumptions, assumptions0)
  }

  /** The same in the middle of marking, when `i` of the supporters have been handled. */
  ghost predicate Marking(g: Graph, ins: Graph, c: CallNode, i: int, m0: set<CallNode>, m: set<CallNode>, k0: Counters,
                          k: Counters, marked0: seq<CallNode>, marked: seq<CallNode>, assumptions0: seq<CallNode>,
                          assumptions: seq<CallNode>)
    requires c in ins && 0 <= i <= |ins[c]|
  {
    && WalkShape(g, ins, m, c, i, m0) && m <= m0 + g.Keys
    && PartShifted(g, k0, k, false, m - m0 - {c}, ins[c][..i]) && Slack(g, k, m)
    && Noted(g, m - m0, m, marked, marked0, assumptions, assumptions0)
  }

  lemma MarkingStarts(g: Graph, ins: Graph, c: CallNode, m0: set<CallNode>, k: Counters, marked: seq<CallNode>,
                      assumptions0: seq<CallNode>, assumptions: seq<CallNode>)
    requires Mirrored(g, ins) && c in g && c !in m0 && Slack(g, k, m0)
    requires assumptions == if k[c] % OutWidth != 0 then [c] + assumptions0 else assumptions0
    ensures Marking(g, ins, c, 0, m0, m0 + {c}, k, k, marked, [c] + marked, assumptions0, assumptions)
  {
    hide WalkShape, PartShifted, Slack, Noted;
    var m := m0 + {c};
    StartWalk(g, ins, c, m0);
    SlackKeys(g, k, m0);
    StartShift(g, k, false);
    NotedFirst(g, c, m0, k, marked, assumptions, assumptions0);
    assert m - m0 == {c} && m - m0 - {c} == {} && ins[c][..0] == [];
    StillSlack(g, ins, k, k, m0, {}, c, 0);
    assert m0 + {} + {c} == m;
  }

  lemma MarkingSlack(g: Graph, ins: Graph, c: CallNode, i: int, m0: set<CallNode>, m: set<CallNode>, k0: Counters,
                     k: Counters)
    requires Mirrored(g, ins) && c in g && 0 <= i < |ins[c]| && c in m && m0 <= m && c !in m0 && Slack(g, k0, m0)
    requires PartShifted(g, k0, k, false, m - m0 - {c}, ins[c][..i])
    ensures ins[c][i] in g
    ensures var k1 := k[ins[c][i] := k[ins[c][i]] - 1];
            PartShifted(g, k0, k1, false, m - m0 - {c}, ins[c][..i + 1]) && Slack(g, k1, m)
  {
    hide PartShifted, Slack;
    var c1, d := ins[c][i], m - m0 - {c};
    assert NoDuplicates(ins[c]) && c1 in ins[c];
    assert ins[c][..i] + [c1] == ins[c][..i + 1];
    OneShifted(g, k0, k, false, d, ins[c][..i], c1);
    assert k.Keys == g.Keys by { ShiftedKeys(g, k0, k, false, d, ins[c][..i]); }
    StillSlack(g, ins, k0, k[c1 := k[c1] - 1], m0, d, c, i + 1);
    assert m0 + d + {c} == m;
  }

  lemma MarkingGoesOn(g: Graph, ins: Graph, c: CallNode, i: int, m0: set<CallNode>, m: set<CallNode>, m2: set<CallNode>,
                      k0: Counters, k: Counters, k1: Counters, k2: Counters,
                      marked0: seq<CallNode>, marked: seq<CallNode>, marked2: seq<CallNode>,
                      assumptions0: seq<CallNode>, assumptions: seq<CallNode>, assumptions2: seq<CallNode>)
    requires Mirrored(g, ins) && c in g && 0 <= i < |ins[c]|
    requires Marking(g, ins, c, i, m0, m, k0, k, marked0, marked, assumptions0, assumptions)
    requires PartShifted(g, k0, k1, false, m - m0 - {c}, ins[c][..i + 1])
    requires MarkedFrom(g, ins, ins[c][i], m, m2, k1, k2, marked, marked2, assumptions, assumptions2)
    ensures Marking(g, ins, c, i + 1, m0, m2, k0, k2, marked0, marked2, assumptions0, assumptions2)
  {
    hide PartShifted, Shifted, Slack, Noted, ClosedBelow, Leading, Mirrored;
    var d := m2 - m;
    MirroredKeys(g, ins);
    assert m0 <= m <= m2 && c in m && c !in m0;
    assert m + d == m2 && m - m0 + d == m2 - m0 && m - m0 - {c} + d == m2 - m0 - {c};
    MoreShifted(g, k0, k1, k2, false, m - m0 - {c}, d, ins[c][..i + 1]);
    NotedTwice(g, m - m0, d, m, m2, marked0, marked, marked2, assumptions0, assumptions, assumptions2);
    ShapeAfter(g, ins, m, d, c, i, m0);
  }

  lemma MarkingEnds(g: Graph, ins: Graph, c: CallNode, m0: set<CallNode>, m: set<CallNode>, k0: Counters, k: Counters,
                    marked0: seq<CallNode>, marked: seq<CallNode>, assumptions0: seq<CallNode>,
                    assumptions: seq<CallNode>)
    requires Mirrored(g, ins) && c in g
    requires Marking(g, ins, c, |ins[c]|, m0, m, k0, k, marked0, marked, assumptions0, assumptions)
    ensures MarkedFrom(g, ins, c, m0, m, k0, k, marked0, marked, assumptions0, assumptions)
  {
    hide PartShifted, Shifted, Slack, Noted, Mirrored;
    MirroredKeys(g, ins);
    EndWalk(g, ins, m, c, m0);
    assert ins[c][..|ins[c]|] == ins[c];
    WholeShift(g, ins, k0, k, false, m - m0 - {c}, c);
    assert m - m0 - {c} + {c} == m - m0;
  }

  lemma AlreadyMarked(g: Graph, ins: Graph, c: CallNode, m: set<CallNode>, k: Counters, marked: seq<CallNode>,
                      assumptions: seq<CallNode>)
    requires c in m && Slack(g, k, m)
    ensures MarkedFrom(g, ins, c, m, m, k, k, marked, marked, assumptions, assumptions)
  {
    hide Shifted, Slack, Noted, PartShifted;
    SlackKeys(g, k, m);
    StartShift(g, k, false);
    NothingNoted(g, m, marked, assumptions);
    assert m - m == {};
  }

  lemma SlackKeys(g: Graph, k: Counters, m: set<CallNode>)
    requires Slack(g, k, m)
    ensures k.Keys == g.Keys
  {
  }

  /** Looking at one call of the assumption list. */
  lemma AssumptionChecked(g: Graph, ins: Graph, c: CallNode, m0: set<CallNode>, d: set<CallNode>, d2: set<CallNode>,
                          k: Counters, k2: Counters, checked: set<CallNode>)
    requires Mirrored(g, ins) && Checking(g, ins, m0, d, checked) && Exact(g, k, d) && c in d && k[c] % OutWidth != 0
    requires d2 <= d && Walked(g, ins, c, g.Keys - d, g.Keys - d2, k, k2)
    ensures Checking(g, ins, m0, d2, checked + {c}) && Exact(g, k2, d2)
  {
    assert d <= g.Keys;
    var x := g.Keys - d2 - (g.Keys - d);
    assert x == d - d2 && c !in d2;
    hide Checking, ClosedBelow, Leading, Mirrored;
    CheckedUnmarked(g, ins, k, m0, d, checked, c, d2);
    StillExact(g, k, k2, d, d2);
  }

  /** The lists of the abolish operation: the marked calls, and those of them that something may still need. */
  class CallTable {
    var marked: seq<CallNode>
    var assumptions: seq<CallNode>

    /** Marks `c` and everything that supports it, lowering the counter of a call once for each edge to a call
        marked by this.  `k0` and `k` are what the counters would be if they did not wrap round. */
    method Mark(c: CallNode, ghost nodes: set<CallNode>, ghost g: Graph, ghost ins: Graph, ghost k0: Counters)
      returns (ghost k: Counters)
      requires Mirrored(g, ins) && g.Keys == nodes && Linked(nodes, ins)
      requires c in nodes && !c.deleted && Tallied(nodes, k0) && Slack(g, k0, Marked(nodes))
      modifies this, nodes`deleted, nodes`outcount
      ensures Tallied(nodes, k)
      ensures MarkedFrom(g, ins, c, old(Marked(nodes)), Marked(nodes), k0, k,
                         old(marked), marked, old(assumptions), assumptions)
      decreases nodes - Marked(nodes), 0
    {
      hide *;
      ghost var m0, marked0, assumptions0 := Marked(nodes), marked, assumptions;
      InedgesOf(c, nodes, ins);
      StartMark(c, nodes, g, ins, k0);
      k := k0;
      var i := 0;
      while i < |c.inedges|
        invariant 0 <= i <= |ins[c]| && c.inedges == ins[c] && m0 + {c} <= Marked(nodes)
        invariant Linked(nodes, ins) && Tallied(nodes, k)
        invariant Marking(g, ins, c, i, m0, Marked(nodes), k0, k, marked0, marked, assumptions0, assumptions)
      {
        ghost var m, k1 := Marked(nodes), k;
        ghost var marked1, assumptions1 := marked, assumptions;
        TalliedKeys(nodes, k1);
        MarkingParts(g, ins, c, i, m0, m, k0, k1, marked0, marked, assumptions0, assumptions);
        MarkingSlack(g, ins, c, i, m0, m, k0, k1);
        k := MarkEdge(c.inedges[i], nodes, g, ins, k1);
        MarkingGoesOn(g, ins, c, i, m0, m, Marked(nodes), k0, k1, k1[ins[c][i] := k1[ins[c][i]] - 1], k,
                      marked0, marked1, marked, assumptions0, assumptions1, assumptions);
        i := i + 1;
      }
      MarkingEnds(g, ins, c, m0, Marked(nodes), k0, k, marked0, marked, assumptions0, assumptions);
    }

    /** Marks `c` itself and puts it on the lists. */
    method StartMark(c: CallNode, ghost nodes: set<CallNode>, ghost g: Graph, ghost ins: Graph, ghost k: Counters)
      requires Mirrored(g, ins) && g.Keys == nodes && c in nodes && !c.deleted
      requires Tallied(nodes, k) && Slack(g, k, Marked(nodes))
      modifies this, c`deleted
      ensures Marked(nodes) == old(Marked(nodes)) + {c}
      ensures Marking(g, ins, c, 0, old(Marked(nodes)), Marked(nodes), k, k,
                      old(marked), marked, old(assumptions), assumptions)
    {
      hide *;
      ghost var m0, marked0, assumptions0 := Marked(nodes), marked, assumptions;
      MarkedAt(c, nodes);
      TalliedAt(nodes, k, c);
      MirroredKeys(g, ins);
      SetMark(c, true, nodes);
      marked := [c] + marked;
      if c.outcount != 0 { assumptions := [c] + assumptions; }
      MarkingStarts(g, ins, c, m0, k, marked0, assumptions0, assumptions);
    }

    method SetMark(c: CallNode, mark: bool, ghost nodes: set<CallNode>)
      requires c in nodes
      modifies c`deleted
      ensures c.deleted == mark && Marked(nodes) == if mark then old(Marked(nodes)) + {c} else old(Marked(nodes)) - {c}
      ensures Unmarked(nodes) == if mark then old(Unmarked(nodes)) - {c} else old(Unmarked(nodes)) + {c}
    {
      c.deleted := mark;
    }

    /** Counts one dependent of `c` more or less. */
    method Tally(c: CallNode, up: bool, ghost nodes: set<CallNode>, ghost k: Counters)
      requires c in nodes && Tallied(nodes, k)
      modifies c`outcount
      ensures Tallied(nodes, k[c := k[c] + Signed(up, 1)])
    {
      hide Cut;
      TalliedAt(nodes, k, c);
      CutOne(k, c, k[c] + Signed(up, 1), OutWidth);
      CutStep(k[c], Signed(up, 1), OutWidth);
      ghost var k0 := Counts(nodes);
      c.outcount := (if up then c.outcount + 1 else c.outcount - 1) % OutWidth;
      assert Counts(nodes) == k0[c := (k[c] + Signed(up, 1)) % OutWidth];
    }

    /** Handles one edge into a call just marked: `c1` supports it. */
    method MarkEdge(c1: CallNode, ghost nodes: set<CallNode>, ghost g: Graph, ghost ins: Graph, ghost k0: Counters)
      returns (ghost k: Counters)
      requires Mirrored(g, ins) && g.Keys == nodes && Linked(nodes, ins) && c1 in nodes
      requires Tallied(nodes, k0) && Slack(g, k0[c1 := k0[c1] - 1], Marked(nodes))
      modifies this, nodes`deleted, nodes`outcount
      ensures Tallied(nodes, k)
      ensures MarkedFrom(g, ins, c1, old(Marked(nodes)), Marked(nodes), k0[c1 := k0[c1] - 1], k,
                         old(marked), marked, old(assumptions), assumptions)
      ensures old(Marked(nodes)) <= Marked(nodes)
      decreases nodes - Marked(nodes), 1
    {
      hide *;
      TalliedKeys(nodes, k0);
      MarkedAt(c1, nodes);
      ghost var m0, k1 := Marked(nodes), k0[c1 := k0[c1] + -1];
      assert k1 == k0[c1 := k0[c1] - 1];
      OneUpDown();
      Tally(c1, false, nodes, k0);
      if !c1.deleted {
        k := Mark(c1, nodes, g, ins, k1);
      } else {
        AlreadyMarked(g, ins, c1, m0, k1, marked, assumptions);
        k := k1;
      }
      MarkedMore(g, ins, c1, m0, Marked(nodes), k1, k, old(marked), marked, old(assumptions), assumptions);
    }

    /** Takes back the mark of `c` and of everything marked that supports it, raising the counters again. */
    method Unmark(c: CallNode, ghost nodes: set<CallNode>, ghost g: Graph, ghost ins: Graph, ghost k0: Counters)
      returns (ghost k: Counters)
      requires Mirrored(g, ins) && g.Keys == nodes && Linked(nodes, ins) && c in nodes && c.deleted &&
               Tallied(nodes, k0)
      modifies nodes`deleted, nodes`outcount
      ensures Tallied(nodes, k) && Walked(g, ins, c, old(Unmarked(nodes)), Unmarked(nodes), k0, k)
      decreases Marked(nodes), 0
    {
      hide *;
      ghost var m0, marks := Unmarked(nodes), Marked(nodes);
      MarkedAt(c, nodes);
      InedgesOf(c, nodes, ins);
      TalliedKeys(nodes, k0);
      MirroredKeys(g, ins);
      SetMark(c, false, nodes);
      WalkStarts(g, ins, c, m0, k0);
      k := k0;
      var i := 0;
      while i < |c.inedges|
        invariant 0 <= i <= |ins[c]| && c.inedges == ins[c] && Marked(nodes) <= marks - {c}
        invariant Linked(nodes, ins) && Tallied(nodes, k)
        invariant Walking(g, ins, c, i, m0, Unmarked(nodes), k0, k)
      {
        ghost var m, k1 := Unmarked(nodes), k;
        WalkEdge(g, ins, c, i, m0, m, k0, k1);
        k := UnmarkEdge(c.inedges[i], nodes, g, ins, k1);
        WalkGoesOn(g, ins, c, i, m0, m, Unmarked(nodes), k0, k1, k1[ins[c][i] := k1[ins[c][i]] + 1], k);
        i := i + 1;
      }
      WalkEnds(g, ins, c, m0, Unmarked(nodes), k0, k);
    }

    method UnmarkEdge(c1: CallNode, ghost nodes: set<CallNode>, ghost g: Graph, ghost ins: Graph, ghost k0: Counters)
      returns (ghost k: Counters)
      requires Mirrored(g, ins) && g.Keys == nodes && Linked(nodes, ins) && c1 in nodes && Tallied(nodes, k0)
      modifies nodes`deleted, nodes`outcount
      ensures Tallied(nodes, k)
      ensures Walked(g, ins, c1, old(Unmarked(nodes)), Unmarked(nodes), k0[c1 := k0[c1] + 1], k)
      ensures Marked(nodes) <= old(Marked(nodes))
      decreases Marked(nodes), 1
    {
      hide *;
      TalliedKeys(nodes, k0);
      MarkedAt(c1, nodes);
      ghost var m0, marks, k1 := Unmarked(nodes), Marked(nodes), k0[c1 := k0[c1] + 1];
      OneUpDown();
      Tally(c1, true, nodes, k0);
      assert Unmarked(nodes) == m0;
      if c1.deleted {
        k := Unmark(c1, nodes, g, ins, k1);
      } else {
        AlreadyVisited(g, ins, c1, m0, k1);
        k := k1;
      }
      WalkedMore(g, ins, c1, m0, Unmarked(nodes), k1, k);
      MarkedAt(c1, nodes);
    }

    /** Looks at one call that was not known to be unneeded when it was marked. */
    method CheckAssumption(c: CallNode, ghost nodes: set<CallNode>, ghost g: Graph, ghost ins: Graph,
                           ghost m0: set<CallNode>, ghost checked: set<CallNode>, ghost k0: Counters)
      returns (ghost k: Counters)
      requires Mirrored(g, ins) && g.Keys == nodes && Linked(nodes, ins) && c in nodes && NoDuplicates(marked)
      requires Checking(g, ins, m0, Marked(nodes), checked) && Tallied(nodes, k0) && Exact(g, k0, Marked(nodes))
      requires Marked(nodes) <= Elements(marked)
      modifies this`marked, nodes`deleted, nodes`outcount
      ensures Tallied(nodes, k) && Exact(g, k, Marked(nodes)) && Checking(g, ins, m0, Marked(nodes), checked + {c})
      ensures Marked(nodes) <= Elements(marked) <= old(Elements(marked)) && NoDuplicates(marked)
    {
      hide *;
      ghost var d := Marked(nodes);
      TalliedAt(nodes, k0, c);
      MarkedAt(c, nodes);
      k := k0;
      if c.outcount > 0 {
        WithoutFacts(marked, c);
        WithoutElements(marked, c);
        marked := Without(marked, c);
        if c.deleted {
          k := Unmark(c, nodes, g, ins, k0);
          WalkedMore(g, ins, c, nodes - d, Unmarked(nodes), k0, k);
          MarkedAt(c, nodes);
          AssumptionChecked(g, ins, c, m0, d, Marked(nodes), k0, k, checked);
        } else {
          CheckedKept(g, ins, k, m0, d, checked, c);
        }
      } else {
        CheckedKept(g, ins, k, m0, d, checked, c);
      }
    }

    /** The second phase. */
    method CheckAssumptions(ghost nodes: set<CallNode>, ghost g: Graph, ghost ins: Graph, ghost m0: set<CallNode>,
                            ghost k0: Counters)
      returns (ghost k: Counters)
      requires Mirrored(g, ins) && g.Keys == nodes && Linked(nodes, ins) && NoDuplicates(marked)
      requires Marked(nodes) == m0 && Tallied(nodes, k0) && Exact(g, k0, m0)
      requires m0 <= Elements(marked) && Elements(assumptions) <= nodes
      modifies this, nodes`deleted, nodes`outcount
      ensures Checking(g, ins, m0, Marked(nodes), old(Elements(assumptions)))
      ensures Tallied(nodes, k) && Exact(g, k, Marked(nodes))
      ensures Marked(nodes) <= Elements(marked) <= old(Elements(marked)) && NoDuplicates(marked)
      ensures assumptions == []
    {
      hide Mirrored, Exact, NoDuplicates, Tallied;
      assert Checking(g, ins, m0, m0, {});
      hide Checking;
      k := k0;
      var i := 0;
      assert Elements(assumptions[..0]) == {};
      while i < |assumptions|
        invariant 0 <= i <= |assumptions| && assumptions == old(assumptions)
        invariant Linked(nodes, ins) && NoDuplicates(marked)
        invariant Checking(g, ins, m0, Marked(nodes), Elements(assumptions[..i]))
        invariant Tallied(nodes, k) && Exact(g, k, Marked(nodes))
        invariant Marked(nodes) <= Elements(marked) <= old(Elements(marked))
      {
        assert assumptions[i] in Elements(assumptions);
        k := CheckAssumption(assumptions[i], nodes, g, ins, m0, Elements(assumptions[..i]), k);
        assert Elements(assumptions[..i + 1]) == Elements(assumptions[..i]) + {assumptions[i]};
        i := i + 1;
      }
      assert assumptions[..i] == assumptions;
      assumptions := [];
    }

    /** Takes the entry for `c` out of the edge table of `x`. */
    method RemoveEdge(x: CallNode, c: CallNode, ghost nodes: set<CallNode>) returns (ok: bool)
      requires x in nodes
      modifies x`outedges
      ensures ok == (c in old(Dependents(nodes)[x]))
      ensures Dependents(nodes) == old(Dependents(nodes)[x := Without(Dependents(nodes)[x], c)])
    {
      hide Without;
      WithoutFacts(x.outedges, c);
      ok := c in x.outedges;
      x.outedges := Without(x.outedges, c);
    }

    method FreeInedges(c: CallNode, ghost nodes: set<CallNode>)
      requires c in nodes
      modifies c`inedges
      ensures Supports(nodes) == old(Supports(nodes)[c := []])
    {
      c.inedges := [];
    }

    /** Takes `c` out of the edge tables of its supporters; fails when a table lacks it. */
    method RemoveEdges(c: CallNode, ghost nodes: set<CallNode>, ghost g: Graph, ghost ins: Graph,
                       ghost gone: set<CallNode>)
      returns (ok: bool)
      requires Sound(g, ins) && g.Keys == nodes && c in nodes && c !in gone && c.inedges == ins[c]
      requires WithoutEdges(g, Dependents(nodes), gone)
      modifies nodes`outedges
      ensures ok && WithoutEdges(g, Dependents(nodes), gone + {c})
    {
      hide Mirrored, WithoutEdges, PartDeleted, Without, Dependents;
      MirroredKeys(g, ins);
      DeletingStarts(g, Dependents(nodes), gone, c);
      assert ins[c][..0] == [];
      var i := 0;
      while i < |c.inedges|
        invariant 0 <= i <= |ins[c]|
        invariant PartDeleted(g, Dependents(nodes), gone, c, ins[c][..i])
      {
        DeletingStep(g, ins, Dependents(nodes), gone, c, i);
        ok := RemoveEdge(c.inedges[i], c, nodes);
        if !ok { return; }
        i := i + 1;
      }
      assert ins[c][..i] == ins[c];
      DeletingEnds(g, ins, Dependents(nodes), gone, c);
      ok := true;
    }

    /** Deletes the edges into `c`. */
    method DeleteInedges(c: CallNode, ghost nodes: set<CallNode>, ghost g: Graph, ghost ins: Graph,
                         ghost gone: set<CallNode>)
      returns (ok: bool)
      requires Sound(g, ins) && g.Keys == nodes && c in nodes && c !in gone
      requires WithoutEdges(g, Dependents(nodes), gone) && WithoutInedges(ins, Supports(nodes), gone)
      modifies nodes`outedges, c`inedges
      ensures ok && WithoutEdges(g, Dependents(nodes), gone + {c}) && WithoutInedges(ins, Supports(nodes), gone + {c})
    {
      assert c.inedges == ins[c] by { assert Supports(nodes)[c] == ins[c]; }
      hide Mirrored, WithoutEdges, WithoutInedges, Supports, Dependents;
      MirroredKeys(g, ins);
      ok := RemoveEdges(c, nodes, g, ins, gone);
      InedgesGone(ins, Supports(nodes), gone, c);
      FreeInedges(c, nodes);
    }

    /** Takes every marked call that is no fact out of the edge tables of its supporters. */
    method DeleteAllInedges(ghost nodes: set<CallNode>, ghost g: Graph, ghost ins: Graph) returns (ok: bool)
      requires Sound(g, ins) && Dependents(nodes) == g && Supports(nodes) == ins
      requires Marked(nodes) <= Elements(marked) <= nodes && NoDuplicates(marked)
      modifies nodes`outedges, nodes`inedges
      ensures ok && WithoutEdges(g, Dependents(nodes), Gone(old(Marked(nodes))))
      ensures WithoutInedges(ins, Supports(nodes), Gone(old(Marked(nodes))))
    {
      hide Mirrored, NoDuplicates, WithoutEdges, WithoutInedges, Dependents, Supports, Doomed, Without, Backed;
      ghost var d := Marked(nodes);
      GraphKeys(nodes);
      NothingDeleted(g, ins);
      NoneDoomed(marked, d);
      var i := 0;
      while i < |marked|
        invariant 0 <= i <= |marked|
        invariant WithoutEdges(g, Dependents(nodes), Doomed(marked[..i], d)) &&
                  WithoutInedges(ins, Supports(nodes), Doomed(marked[..i], d))
      {
        var c := marked[i];
        assert c in Elements(marked);
        DoomedNext(marked, d, i);
        if c.deleted && !c.fact {
          ok := DeleteInedges(c, nodes, g, ins, Doomed(marked[..i], d));
          if !ok { return; }
        }
        i := i + 1;
      }
      AllDoomed(marked, d);
      ok := true;
    }

    /** The third phase: marked calls other than facts disappear.  Fails when the counter of one is not zero. */
    method DeleteCalls(ghost nodes: set<CallNode>, ghost g: Graph, ghost ins: Graph, ghost k: Counters)
      returns (ok: bool)
      requires Sound(g, ins) && Dependents(nodes) == g && Supports(nodes) == ins && Tallied(nodes, k)
      requires Marked(nodes) <= Elements(marked) <= nodes && NoDuplicates(marked)
      modifies this`marked, nodes`outedges, nodes`inedges
      ensures ok <==> forall c :: c in Gone(old(Marked(nodes))) ==> c in k && k[c] % OutWidth == 0
      ensures ok ==> marked == [] && Freed(g, Dependents(nodes), Gone(old(Marked(nodes))), Gone(old(Marked(nodes))))
      ensures WithoutInedges(ins, Supports(nodes), Gone(old(Marked(nodes))))
    {
      hide Sound, NoDuplicates, WithoutEdges, WithoutInedges, Freed, Tallied, Filter, Dependents, Supports, Doomed, Cut;
      ghost var d := Marked(nodes);
      GraphKeys(nodes);
      ok := DeleteAllInedges(nodes, g, ins);
      NothingFreed(g, Dependents(nodes), Gone(d));
      NoneDoomed(marked, d);
      var i := 0;
      while i < |marked|
        invariant 0 <= i <= |marked| && marked == old(marked)
        invariant Freed(g, Dependents(nodes), Gone(d), Doomed(marked[..i], d))
        invariant WithoutInedges(ins, Supports(nodes), Gone(d))
        invariant forall c :: c in Doomed(marked[..i], d) ==> c in k && k[c] % OutWidth == 0
      {
        var c := marked[i];
        ok := DeleteCallNode(c, nodes, g, ins, k, d, Doomed(marked[..i], d));
        DoomedNext(marked, d, i);
        if !ok { return; }
        i := i + 1;
      }
      AllDoomed(marked, d);
      marked := [];
      ok := true;
    }

    /** Deletes `c` if it is still marked and no fact; fails when its counter is not zero. */
    method DeleteCallNode(c: CallNode, ghost nodes: set<CallNode>, ghost g: Graph, ghost ins: Graph, ghost k: Counters,
                          ghost d: set<CallNode>, ghost done: set<CallNode>)
      returns (ok: bool)
      requires c in Elements(marked) && Elements(marked) <= nodes && d == Marked(nodes) && Tallied(nodes, k)
      requires Freed(g, Dependents(nodes), Gone(d), done) && c in g
      modifies c`outedges
      ensures c in k && (ok <==> c !in Gone(d) || k[c] % OutWidth == 0)
      ensures ok ==> Freed(g, Dependents(nodes), Gone(d), if c in d && !c.fact then done + {c} else done)
    {
      hide *;
      assert c in nodes;
      TalliedAt(nodes, k, c);
      MarkedAt(c, nodes);
      GoneAt(c, d);
      ok := true;
      if c.deleted && !c.fact {
        if c.outcount != 0 { return false; }
        FreeNext(g, Dependents(nodes), Gone(d), done, c);
        FreeCall(c, nodes);
      }
    }

    /** Destroys the edge table of `c`. */
    method FreeCall(c: CallNode, ghost nodes: set<CallNode>)
      requires c in nodes
      modifies c`outedges
      ensures Dependents(nodes) == old(Dependents(nodes)[c := []])
    {
      c.outedges := [];
    }

    /** The first two phases: which calls they leave marked depends on what the counters show. */
    method Decide(p: CallNode, ghost nodes: set<CallNode>, ghost g: Graph, ghost ins: Graph, ghost k0: Counters)
      returns (ghost k: Counters, ghost checked: set<CallNode>)
      requires Sound(g, ins) && g.Keys == nodes && Linked(nodes, ins) && p in nodes
      requires Marked(nodes) == {} && Tallied(nodes, k0) && Exact(g, k0, {}) && assumptions == []
      modifies this, nodes`deleted, nodes`outcount
      ensures Decided(g, ins, p, Marked(nodes), checked) && Tallied(nodes, k) && Exact(g, k, Marked(nodes))
      ensures Marked(nodes) <= Elements(marked) <= nodes && NoDuplicates(marked) && assumptions == []
    {
      hide *;
      marked := [];
      ExactSlack(g, k0);
      MarkedAt(p, nodes);
      SoundMirrored(g, ins);
      k := Mark(p, nodes, g, ins, k0);
      ghost var m0 := Marked(nodes);
      checked := Elements(assumptions);
      AllMarked(g, ins, p, m0, k0, k, marked, assumptions);
      MarkedIn(nodes);
      k := CheckAssumptions(nodes, g, ins, m0, k);
      MakeDecided(g, ins, p, Marked(nodes), checked);
    }

    /** Abolishes `p`.  If no call has more dependents than can be counted, `p` and all calls that serve only
        abolished calls are deleted, facts excepted, and the rest of the graph is again sound with exact counters. */
    method AbolishIncrCall(p: CallNode, ghost nodes: set<CallNode>, ghost g: Graph, ghost ins: Graph,
                           ghost k0: Counters)
      returns (ok: bool, ghost checked: set<CallNode>)
      requires Sound(g, ins) && Dependents(nodes) == g && Supports(nodes) == ins && p in nodes
      requires Marked(nodes) == {} && Tallied(nodes, k0) && Exact(g, k0, {}) && assumptions == []
      modifies this, nodes`deleted, nodes`outcount, nodes`outedges, nodes`inedges
      ensures Decided(g, ins, p, Marked(nodes), checked) && assumptions == []
      ensures ok <==> NoneShown(g, Marked(nodes))
      ensures ok ==> (Gone(Marked(nodes)) == Gone(Abolished(g, p)) <==> AllNoticed(g, p))
      ensures ok ==> marked == [] && Freed(g, Dependents(nodes), Gone(Marked(nodes)), Gone(Marked(nodes)))
      ensures WithoutInedges(ins, Supports(nodes), Gone(Marked(nodes)))
      ensures Few(g) ==> ok && Marked(nodes) == Abolished(g, p)
      ensures Few(g) ==> WithoutEdges(g, Dependents(nodes), Gone(Abolished(g, p)))
      ensures Few(g) ==> var keep := nodes - Gone(Abolished(g, p));
                         Sound(Dependents(keep), Supports(keep)) && Exact(Dependents(keep), Counts(keep), {})
    {
      hide *;
      GraphsLinked(nodes, g, ins);
      ghost var k;
      k, checked := Decide(p, nodes, g, ins, k0);
      ghost var d := Marked(nodes);
      ok := DeleteCalls(nodes, g, ins, k);
      CountersShow(g, k, d);
      ShownIs(g, k, d);
      if ok { RightIff(g, ins, p, d, checked); }
      MarkedIn(nodes);
      if Few(g) {
        SoundMirrored(g, ins);
        KeptMarks(g, ins, p, d, checked);
        NothingCounted(g, ins, k, d);
        FreedIsWithout(g, k, d, Dependents(nodes));
        Survivors(g, ins, k, d, Dependents(nodes), Supports(nodes));
        FewUncut(g, k, d, nodes);
        RestrictState(nodes, nodes - Gone(d));
      }
    }
  }

  lemma OneUpDown()
    ensures Signed(true, 1) == 1 && Signed(false, 1) == -1
  {
  }

  lemma WithoutElements(s: seq<CallNode>, c: CallNode)
    ensures Elements(Without(s, c)) == Elements(s) - {c}
  {
    hide Without;
    WithoutFacts(s, c);
    var rest := Without(s, c);
    forall n
      ensures n in Elements(rest) <==> n in Elements(s) - {c}
    {
      assert n in rest <==> n in s && n != c;
    }
    assert Elements(rest) == Elements(s) - {c};
  }

  lemma GoneAt(c: CallNode, d: set<CallNode>)
    ensures c in Gone(d) <==> c in d && !c.fact
  {
  }

  lemma SoundMirrored(g: Graph, ins: Graph)
    requires Sound(g, ins)
    ensures Mirrored(g, ins)
  {
  }

  lemma MakeDecided(g: Graph, ins: Graph, p: CallNode, d: set<CallNode>, checked: set<CallNode>)
    requires Checking(g, ins, Supporters(g, p), d, checked)
    requires forall n :: n in Supporters(g, p) && n !in checked ==> n in g && NeedsNone(g, n, Supporters(g, p))
    ensures Decided(g, ins, p, d, checked)
  {
  }

  lemma GraphsLinked(nodes: set<CallNode>, g: Graph, ins: Graph)
    requires Dependents(nodes) == g && Supports(nodes) == ins
    ensures g.Keys == nodes && Linked(nodes, ins)
  {
    assert forall n :: n in nodes ==> Supports(nodes)[n] == n.inedges;
  }

  // ---------------------------------------------------------------- destroying edge tables

  /** The edge tables once the calls in `gone` have been taken out of them and those of `done` destroyed. */
  ghost predicate Freed(g: Graph, now: Graph, gone: set<CallNode>, done: set<CallNode>) {
    now.Keys == g.Keys && forall x :: x in g ==> now[x] == if x in done then [] else Filter(g[x], gone)
  }

  lemma NothingFreed(g: Graph, now: Graph, gone: set<CallNode>)
    requires WithoutEdges(g, now, gone)
    ensures Freed(g, now, gone, {})
  {
  }

  lemma FreeNext(g: Graph, now: Graph, gone: set<CallNode>, done: set<CallNode>, c: CallNode)
    requires Freed(g, now, gone, done)
    ensures Freed(g, now[c := []], gone, done + {c}) || c !in g
  {
  }

  lemma CountersShow(g: Graph, k: Counters, d: set<CallNode>)
    requires Exact(g, k, d)
    ensures forall c :: c in Gone(d) ==> (c in k <==> c in g) && (c in g ==> k[c] == |g[c]| - Count(g[c], d))
  {
  }

  lemma ShownIs(g: Graph, k: Counters, d: set<CallNode>)
    requires forall c :: c in Gone(d) ==> (c in k <==> c in g) && (c in g ==> k[c] == |g[c]| - Count(g[c], d))
    ensures NoneShown(g, d) <==> forall c :: c in Gone(d) ==> c in k && k[c] % OutWidth == 0
  {
  }

  lemma NothingCounted(g: Graph, ins: Graph, k: Counters, d: set<CallNode>)
    requires Sound(g, ins) && ClosedAbove(g, d) && Exact(g, k, d) && d <= g.Keys
    ensures forall c :: c in Gone(d) ==> c in k && k[c] % OutWidth == 0 && Filter(g[c], Gone(d)) == []
    ensures k.Keys == g.Keys
  {
    hide Filter, Count, Sound, ClosedAbove;
    forall c | c in Gone(d)
      ensures c in k && k[c] % OutWidth == 0 && Filter(g[c], Gone(d)) == []
    {
      GoneSupportsNothing(g, ins, k, d, c);
    }
  }

  lemma FreedIsWithout(g: Graph, k: Counters, d: set<CallNode>, now: Graph)
    requires Freed(g, now, Gone(d), Gone(d)) && k.Keys == g.Keys
    requires forall c :: c in Gone(d) ==> c in k && Filter(g[c], Gone(d)) == []
    ensures WithoutEdges(g, now, Gone(d))
  {
    hide Filter;
  }

  lemma FewUncut(g: Graph, k: Counters, d: set<CallNode>, nodes: set<CallNode>)
    requires Few(g) && Exact(g, k, d) && Tallied(nodes, k)
    ensures Counts(nodes) == k
  {
    forall n | n in nodes
      ensures n in k && n.outcount == k[n]
    {
      TalliedAt(nodes, k, n);
      CountBound(g[n], d);
    }
  }

  lemma MarkedIn(nodes: set<CallNode>)
    ensures Marked(nodes) <= nodes
  {
  }

  lemma RestrictState(nodes: set<CallNode>, keep: set<CallNode>)
    requires keep <= nodes
    ensures Restrict(Dependents(nodes), keep) == Dependents(keep) && Restrict(Supports(nodes), keep) == Supports(keep)
    ensures Recount(Counts(nodes), keep) == Counts(keep)
  {
  }

  lemma AllDoomed(list: seq<CallNode>, d: set<CallNode>)
    requires d <= Elements(list)
    ensures Doomed(list[..|list|], d) == Gone(d)
  {
    assert list[..|list|] == list;
    forall n | n in d
      ensures n in list
    {
      assert n in Elements(list);
    }
  }

  lemma ExactSlack(g: Graph, counts: Counters)
    requires Exact(g, counts, {})
    ensures Slack(g, counts, {})
  {
    forall n | n in g
      ensures counts[n] <= |g[n]| <= counts[n] + Count(g[n], {})
    {
    }
  }

  /** The end of the first phase. */
  lemma AllMarked(g: Graph, ins: Graph, p: CallNode, m: set<CallNode>, k0: Counters, k: Counters, marked: seq<CallNode>,
                  assumptions: seq<CallNode>)
    requires Mirrored(g, ins) && p in g && Exact(g, k0, {})
    requires MarkedFrom(g, ins, p, {}, m, k0, k, [], marked, [], assumptions)
    ensures m == Supporters(g, p) && Exact(g, k, m) && Elements(marked) == m && NoDuplicates(marked)
    ensures Elements(assumptions) <= m
    ensures forall n :: n in m && n !in Elements(assumptions) ==> n in g && NeedsNone(g, n, m)
  {
    hide Mirrored, Count;
    assert m - {} == m;
    assert marked[..|marked| - 0] == marked && {} + m == m;
    assert Elements([]) == {};
    MarkedSupporters(g, ins, p, m);
    forall n | n in g
      ensures Count(g[n], {}) == 0
    {
      CountBound(g[n], {});
    }
  }

  lemma MarkedMore(g: Graph, ins: Graph, c: CallNode, m0: set<CallNode>, m: set<CallNode>, k0: Counters, k: Counters,
                   marked0: seq<CallNode>, marked: seq<CallNode>, assumptions0: seq<CallNode>,
                   assumptions: seq<CallNode>)
    requires MarkedFrom(g, ins, c, m0, m, k0, k, marked0, marked, assumptions0, assumptions)
    ensures m0 <= m
  {
  }

  lemma MarkingParts(g: Graph, ins: Graph, c: CallNode, i: int, m0: set<CallNode>, m: set<CallNode>, k0: Counters,
                     k: Counters, marked0: seq<CallNode>, marked: seq<CallNode>, assumptions0: seq<CallNode>,
                     assumptions: seq<CallNode>)
    requires c in ins && 0 <= i <= |ins[c]|
    requires Marking(g, ins, c, i, m0, m, k0, k, marked0, marked, assumptions0, assumptions)
    ensures m0 + {c} <= m && c !in m0
    ensures PartShifted(g, k0, k, false, m - m0 - {c}, ins[c][..i])
  {
  }
}
