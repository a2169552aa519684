/** The dependency graph of incrementally tabled calls: call nodes, their edges, and reachability. */
module CallGraph {

  // The counters of a call are bit fields of 14 and 15 bits.
  const FalseWidth: int := 0x4000
  const OutWidth: int := 0x8000

  type FalseCount = x: int | 0 <= x < FalseWidth
  type OutCount = x: int | 0 <= x < OutWidth

  /** A call.  `outedges` are the calls that depend on it, the contents of its edge table; `inedges` are the
      calls on which it depends.  A fact is a call without a table of its own. */
  class CallNode {
    const fact: bool
    var deleted: bool
    var falsecount: FalseCount
    var outcount: OutCount
    var outedges: seq<CallNode>
    var inedges: seq<CallNode>

    constructor (fact: bool)
      ensures this.fact == fact && !deleted && falsecount == 0 && outcount == 0
      ensures outedges == [] && inedges == []
    {
      this.fact := fact;
      deleted, falsecount, outcount, outedges, inedges := false, 0, 0, [], [];
    }
  }

  // `g[n]` are the calls that depend directly on `n`.
  type Graph = map<CallNode, seq<CallNode>>

  ghost function Dependents(nodes: set<CallNode>): Graph
    reads nodes`outedges
  {
    map n | n in nodes :: n.outedges
  }

  // The calls on which each call depends directly.
  ghost function Supports(nodes: set<CallNode>): Graph
    reads nodes`inedges
  {
    map n | n in nodes :: n.inedges
  }

  ghost predicate NoDuplicates(s: seq<CallNode>) {
    forall i, j :: 0 <= i < j < |s| ==> s[i] != s[j]
  }

  // Every edge of `g` is listed backwards in `ins`.
  ghost predicate Backed(g: Graph, ins: Graph) {
    forall n, m :: n in g && m in g[n] ==> m in ins && n in ins[m]
  }

  /** `ins` lists the edges of `g` backwards, and no edge is listed twice. */
  ghost predicate Mirrored(g: Graph, ins: Graph) {
    && g.Keys == ins.Keys
    && (forall n :: n in g ==> NoDuplicates(g[n]) && NoDuplicates(ins[n]))
    && Backed(g, ins) && Backed(ins, g)
  }

  /** Facts depend on nothing. */
  ghost predicate Sound(g: Graph, ins: Graph) {
    Mirrored(g, ins) && forall n :: n in g && n.fact ==> ins[n] == []
  }

  lemma MirroredKeys(g: Graph, ins: Graph)
    requires Mirrored(g, ins)
    ensures g.Keys == ins.Keys
  {
  }

  lemma BothWays(g: Graph, ins: Graph, x: CallNode, y: CallNode)
    requires Mirrored(g, ins)
    ensures x in g && y in g[x] <==> y in ins && x in ins[y]
    ensures x in g && y in g[x] ==> x in ins && y in g
  {
  }

  function Elements(s: seq<CallNode>): set<CallNode> {
    set n | n in s
  }

  /** Of the calls in `out`, how many are in `d`. */
  function Count(out: seq<CallNode>, d: set<CallNode>): nat {
    if out == [] then 0 else (if out[0] in d then 1 else 0) + Count(out[1..], d)
  }

  lemma {:induction false} CountDisjoint(out: seq<CallNode>, a: set<CallNode>, b: set<CallNode>)
    requires a !! b
    ensures Count(out, a + b) == Count(out, a) + Count(out, b)
  {
    if out != [] { CountDisjoint(out[1..], a, b); }
  }

  lemma {:induction false} CountSingle(out: seq<CallNode>, x: CallNode)
    requires NoDuplicates(out)
    ensures Count(out, {x}) == if x in out then 1 else 0
  {
    if out != [] {
      CountSingle(out[1..], x);
      assert out == [out[0]] + out[1..];
      assert x in out <==> x == out[0] || x in out[1..];
    }
  }

  lemma {:induction false} CountBound(out: seq<CallNode>, d: set<CallNode>)
    ensures Count(out, d) <= |out|
    ensures Count(out, d) == |out| <==> forall n :: n in out ==> n in d
    ensures Count(out, d) == 0 <==> forall n :: n in out ==> n !in d
  {
    if out != [] {
      CountBound(out[1..], d);
      assert out == [out[0]] + out[1..];
      assert forall n :: n in out <==> n == out[0] || n in out[1..];
    }
  }

  lemma {:induction false} CountSame(out: seq<CallNode>, a: set<CallNode>, b: set<CallNode>)
    requires forall n :: n in out ==> (n in a <==> n in b)
    ensures Count(out, a) == Count(out, b)
  {
    if out != [] { CountSame(out[1..], a, b); }
  }

  // ---------------------------------------------------------------- reachability

  ghost predicate ReachIn(g: Graph, a: CallNode, b: CallNode, n: nat)
    decreases n
  {
    if n == 0 then a == b else a in g && exists c :: c in g[a] && ReachIn(g, c, b, n - 1)
  }

  /** `b` depends on `a`, directly or not, or is `a` itself. */
  ghost predicate Reach(g: Graph, a: CallNode, b: CallNode) {
    exists n: nat :: ReachIn(g, a, b, n)
  }

  /** All calls on which `p` depends, and `p`. */
  ghost function Supporters(g: Graph, p: CallNode): set<CallNode> {
    set n | n in g && Reach(g, n, p)
  }

  lemma ReachSelf(g: Graph, a: CallNode)
    ensures Reach(g, a, a)
  {
    assert ReachIn(g, a, a, 0);
  }

  lemma ReachStep(g: Graph, a: CallNode, c: CallNode, b: CallNode)
    requires a in g && c in g[a] && Reach(g, c, b)
    ensures Reach(g, a, b)
  {
    var n: nat :| ReachIn(g, c, b, n);
    assert ReachIn(g, a, b, n + 1);
  }

  lemma {:induction false} ReachInTrans(g: Graph, a: CallNode, b: CallNode, c: CallNode, m: nat, n: nat)
    requires ReachIn(g, a, b, m) && ReachIn(g, b, c, n)
    ensures ReachIn(g, a, c, m + n)
    decreases m
  {
    if m > 0 {
      var d :| d in g[a] && ReachIn(g, d, b, m - 1);
      ReachInTrans(g, d, b, c, m - 1, n);
    }
  }

  lemma ReachTrans(g: Graph, a: CallNode, b: CallNode, c: CallNode)
    requires Reach(g, a, b) && Reach(g, b, c)
    ensures Reach(g, a, c)
  {
    var m: nat :| ReachIn(g, a, b, m);
    var n: nat :| ReachIn(g, b, c, n);
    ReachInTrans(g, a, b, c, m, n);
  }

  /** A set closed under dependents contains whatever depends on its members. */
  lemma {:induction false} StaysInsideIn(g: Graph, a: CallNode, b: CallNode, n: nat, s: set<CallNode>)
    requires forall x, y :: x in s && x in g && y in g[x] ==> y in s
    requires a in s && ReachIn(g, a, b, n)
    ensures b in s
    decreases n
  {
    if n > 0 {
      var c :| c in g[a] && ReachIn(g, c, b, n - 1);
      StaysInsideIn(g, c, b, n - 1, s);
    }
  }

  lemma StaysInside(g: Graph, a: CallNode, b: CallNode, s: set<CallNode>)
    requires forall x, y :: x in s && x in g && y in g[x] ==> y in s
    requires a in s && Reach(g, a, b)
    ensures b in s
  {
    var n: nat :| ReachIn(g, a, b, n);
    StaysInsideIn(g, a, b, n, s);
  }

  /** A set closed under supporters contains whatever its members depend on. */
  lemma {:induction false} ComesFromInsideIn(g: Graph, a: CallNode, b: CallNode, n: nat, s: set<CallNode>)
    requires forall x, y :: x in g && y in g[x] && y in s ==> x in s
    requires b in s && ReachIn(g, a, b, n)
    ensures a in s
    decreases n
  {
    if n > 0 {
      var c :| c in g[a] && ReachIn(g, c, b, n - 1);
      ComesFromInsideIn(g, c, b, n - 1, s);
    }
  }

  lemma ComesFromInside(g: Graph, a: CallNode, b: CallNode, s: set<CallNode>)
    requires forall x, y :: x in g && y in g[x] && y in s ==> x in s
    requires b in s && Reach(g, a, b)
    ensures a in s
  {
    var n: nat :| ReachIn(g, a, b, n);
    ComesFromInsideIn(g, a, b, n, s);
  }
}
