/** Whole runs of incremental maintenance: facts change, calls are invalidated, re-evaluated, found changed or
    unchanged, and abolished.  Under two conditions the counters stay exact, and no table is used although something
    on which it depends has changed since it was computed; StaleTables shows that both conditions are needed.

    A call stands here both for its old node and for the one that replaces it when it is re-evaluated.  Which
    call is re-evaluated when, whether it has changed, and which calls it then uses are up to the environment. */
module InvalidationRuns {
  import opened CallGraph
  import opened Walks
  import opened Invalidation
  import Abolish

  // `w(x, y)` invalidations of `x` are outstanding along its edge to `y`.
  type Weights = (CallNode, CallNode) -> int

  datatype State = State(
    g: Graph,
    ins: Graph,
    deleted: set<CallNode>,
    counts: Counters,
    affected: seq<CallNode>,
    // The calls being re-evaluated.
    busy: set<CallNode>,
    // History: outstanding invalidations, along edges and direct ones.
    w: Weights,
    direct: Counters,
    // `(y, x)`: `x` is being re-evaluated and `y` was last evaluated before that.
    due: set<(CallNode, CallNode)>,
    // `(y, x)`: `x` has changed since `y` was last evaluated.
    behind: set<(CallNode, CallNode)>)

  datatype Event =
    | Invalidate(c: CallNode)
    | Fetch
    | Start(c: CallNode)
    | Finish(c: CallNode, changed: bool, supports: seq<CallNode>)
    | Create(c: CallNode, supports: seq<CallNode>)
    | Remove(c: CallNode)

  // ---------------------------------------------------------------- steps

  ghost function PairsTo(g: Graph, c: CallNode): set<(CallNode, CallNode)>
    requires c in g
  {
    set y | y in g[c] :: (y, c)
  }

  ghost function ChargedBy(g: Graph, w: Weights, d: set<CallNode>): Weights {
    (x: CallNode, y: CallNode) => if x in d && x in g && y in g[x] then w(x, y) + 1 else w(x, y)
  }

  ghost function DischargedBy(g: Graph, w: Weights, k: Counters, d: set<CallNode>): Weights {
    (x: CallNode, y: CallNode) => if x in d && x in g && y in g[x] && y in k && k[y] > 0 then w(x, y) - 1 else w(x, y)
  }

  ghost function ClearedFor(w: Weights, c: CallNode): Weights {
    (x: CallNode, y: CallNode) => if y == c then 0 else w(x, y)
  }

  ghost function NoWeights(): Weights {
    (x: CallNode, y: CallNode) => 0
  }

  /** An invalidation request for `c`; if `c` is a fact, it has changed. */
  ghost predicate InvalidateStep(s: State, c: CallNode, s2: State) {
    && s.busy == {} && c in s.counts && c in s.direct && c in s.g
    && InvalidatedCut(s.g, s.ins, c, s.deleted, s2.deleted, s.counts, s2.counts, s.affected, s2.affected)
    && s2.g == s.g && s2.ins == s.ins && s2.busy == s.busy && s2.due == s.due
    && s2.w == ChargedBy(s.g, s.w, s2.deleted - s.deleted)
    && s2.direct == (if c in s.deleted then s.direct else s.direct[c := s.direct[c] + 1])
    && s2.behind == (if c.fact then s.behind + PairsTo(s.g, c) else s.behind)
  }

  /** The affected list is fetched, which makes the facts on it valid. */
  ghost predicate FetchStep(s: State, s2: State) {
    s2 == s.(affected := [], deleted := s.deleted - (set f | f in s.affected && f.fact))
  }

  /** The table of a call is used only while its counter is zero. */
  ghost predicate NeedsWork(s: State, x: CallNode) {
    x in s.counts && s.counts[x] > 0 && x !in s.busy && !x.fact
  }

  /** A call with a positive counter is called again and so re-evaluated. */
  ghost predicate StartStep(s: State, c: CallNode, s2: State) {
    && NeedsWork(s, c) && c in s.direct && c in s.g
    && s2 == s.(deleted := s.deleted + {c}, counts := s.counts[c := 0], direct := s.direct[c := 0], busy :=
                s.busy + {c},
                w := ClearedFor(s.w, c),
                due := (set p | p in s.due && p.0 != c) + (set p | p in PairsTo(s.g, c) && p.0 !in s.busy + {c}),
                behind := set p | p in s.behind && p.0 != c)
  }

  /** The edges after `c` has been re-evaluated using the calls `supports`. */
  ghost predicate Rewired(s: State, c: CallNode, supports: seq<CallNode>, s2: State) {
    && Mirrored(s2.g, s2.ins) && c in s.ins && s2.ins == s.ins[c := supports]
    && s2.g.Keys == s.g.Keys
    && (forall x, y :: x in s.g && y in s.g[x] && y != c ==> y in s2.g[x])
    && (forall x, y :: x in s.g && y in s2.g[x] && y != c ==> y in s.g[x])
  }

  ghost predicate Dirty(s: State, x: CallNode) {
    x in s.deleted && x !in s.busy && !x.fact
  }

  /** Re-evaluation of `c` ends.  Every call it used has been brought up to date first. */
  ghost predicate FinishStep(s: State, c: CallNode, changed: bool, supports: seq<CallNode>, s2: State) {
    && c in s.busy && (forall x :: x in supports ==> !NeedsWork(s, x)) && Rewired(s, c, supports, s2)
    && s2.affected == s.affected && s2.busy == s.busy - {c} && s2.direct == s.direct
    && s2.due == (set p | p in s.due && p.1 != c)
    && if changed
       then && s2.counts == s.counts && s2.w == s.w && s2.deleted == s.deleted - {c}
            && s2.behind == s.behind + (set p | p in s.due && p.1 == c)
       else var d := Zeros(s2.counts) - Zeros(s.counts);
            && Reported(s2.ins, c, s.counts, s2.counts, d) && s2.deleted == s.deleted - d - {c}
            && s2.w == DischargedBy(s2.g, s.w, s.counts, d + {c}) && s2.behind == s.behind
  }

  /** A call without a table, and so without edges, is evaluated for the first time. */
  ghost predicate CreateStep(s: State, c: CallNode, supports: seq<CallNode>, s2: State) {
    && c in s.g && c in s.ins && s.g[c] == [] && s.ins[c] == [] && !c.fact && c !in s.busy && c !in s.deleted
    && (forall x :: x in supports ==> !NeedsWork(s, x)) && Rewired(s, c, supports, s2)
    && s2 == s.(g := s2.g, ins := s2.ins)
  }

  ghost function WithoutCalls(g: Graph, gone: set<CallNode>): Graph {
    map n | n in g :: if n in gone then [] else Abolish.Filter(g[n], gone)
  }

  ghost function WithoutSupports(ins: Graph, gone: set<CallNode>): Graph {
    map n | n in ins :: if n in gone then [] else ins[n]
  }

  ghost function ZeroFor(k: Counters, gone: set<CallNode>): Counters {
    map n | n in k :: if n in gone then 0 else k[n]
  }

  ghost function WithoutWeights(w: Weights, gone: set<CallNode>): Weights {
    (x: CallNode, y: CallNode) => if x in gone || y in gone then 0 else w(x, y)
  }

  /** The call `p` is abolished while nothing is invalid.  Abolished calls have no edges until they are called
      again; facts among them stay, and stay marked. */
  ghost predicate RemoveStep(s: State, p: CallNode, s2: State) {
    && s.busy == {} && s.deleted == {} && p in s.g && Abolish.Few(s.g)
    && var d := Abolish.Abolished(s.g, p);
       var gone := Abolish.Gone(d);
       s2 == s.(g := WithoutCalls(s.g, gone), ins := WithoutSupports(s.ins, gone), deleted := d - gone,
                counts := ZeroFor(s.counts, gone), direct := ZeroFor(s.direct, gone), w := WithoutWeights(s.w, gone),
                behind := set q | q in s.behind && q.0 !in gone)
  }

  ghost predicate Step(s: State, e: Event, s2: State) {
    match e
    case Invalidate(c) => InvalidateStep(s, c, s2)
    case Fetch => FetchStep(s, s2)
    case Start(c) => StartStep(s, c, s2)
    case Finish(c, changed, supports) => FinishStep(s, c, changed, supports, s2)
    case Create(c, supports) => CreateStep(s, c, supports, s2)
    case Remove(p) => RemoveStep(s, p, s2)
  }

  ghost predicate Fresh(s: State) {
    && Sound(s.g, s.ins) && s.deleted == {} && s.affected == [] && s.busy == {} && s.due == {} && s.behind == {}
    && s.w == NoWeights()
    && s.counts == s.direct == map n | n in s.g :: 0
  }

  ghost predicate Run(s: State, log: seq<(Event, State)>)
    decreases |log|
  {
    log == [] || (Step(s, log[0].0, log[0].1) && Run(log[0].1, log[1..]))
  }

  ghost function End(s: State, log: seq<(Event, State)>): State {
    if log == [] then s else log[|log| - 1].1
  }

  // ---------------------------------------------------------------- the two conditions

  /** No fact that is still marked has been used. */
  ghost predicate NoMarkedFact(s: State, supports: seq<CallNode>) {
    forall x :: x in supports && x.fact ==> x !in s.deleted
  }

  ghost predicate CleanEvent(s: State, e: Event) {
    match e
    case Finish(_, _, supports) => NoMarkedFact(s, supports)
    case Create(_, supports) => NoMarkedFact(s, supports)
    case _ => true
  }

  /** No call is evaluated with the help of a fact that is still marked. */
  ghost predicate Clean(s: State, log: seq<(Event, State)>)
    decreases |log|
  {
    log == [] || (CleanEvent(s, log[0].0) && Clean(log[0].1, log[1..]))
  }

  /** At most `bound` invalidations are outstanding for each call. */
  ghost predicate Small(bound: int, s: State) {
    forall n :: n in s.ins && n in s.direct && !n.fact ==> s.direct[n] + SumIn(s.ins[n], n, s.w) <= bound
  }

  ghost predicate Within(bound: int, log: seq<(Event, State)>) {
    forall i :: 0 <= i < |log| ==> Small(bound, log[i].1)
  }

  // ---------------------------------------------------------------- what runs keep

  ghost function SumIn(s: seq<CallNode>, n: CallNode, w: Weights): int {
    if s == [] then 0 else w(s[0], n) + SumIn(s[1..], n, w)
  }

  /** The counter of every call is the number of invalidations outstanding for it. */
  ghost predicate ExactCounts(s: State) {
    && s.counts.Keys == s.direct.Keys == s.ins.Keys
    && (forall n :: n in s.ins && !n.fact ==>
          0 <= s.counts[n] == s.direct[n] + SumIn(s.ins[n], n, s.w) < FalseWidth && s.direct[n] >= 0)
    && (forall n, x :: n in s.ins && x in s.ins[n] ==> s.w(x, n) >= 0)
  }

  ghost predicate Shape(s: State) {
    && Sound(s.g, s.ins) && s.deleted <= s.g.Keys && s.busy <= s.g.Keys && s.counts.Keys == s.direct.Keys == s.g.Keys
    && (forall n :: n in s.busy ==> !n.fact)
  }

  /** A call is taken for invalid exactly when its counter is positive, or while it is re-evaluated. */
  ghost predicate FlagsRight(s: State) {
    forall n :: n in s.ins && n in s.counts && !n.fact ==>
      (n in s.busy ==> n in s.deleted && s.counts[n] == 0) &&
      (n !in s.busy ==> (n in s.deleted <==> s.counts[n] > 0))
  }

  ghost function Owed(s: State, y: CallNode, x: CallNode): int {
    if (y, x) in s.behind then 2 else 1
  }

  ghost predicate DirtyCharged(s: State) {
    forall x, y :: x in s.g && Dirty(s, x) && y in s.g[x] && y !in s.busy ==> s.w(x, y) >= Owed(s, y, x)
  }

  ghost predicate DueCharged(s: State) {
    forall p :: p in s.due ==>
      p.1 in s.busy && p.0 !in s.busy && p.1 in s.g && p.0 in s.g[p.1] && s.w(p.1, p.0) >= Owed(s, p.0, p.1)
  }

  ghost predicate BusyDue(s: State) {
    forall x, y :: x in s.busy && x in s.g && y in s.g[x] && y in s.counts && (y, x) !in s.due ==> s.counts[y] == 0
  }

  ghost predicate BehindCharged(s: State) {
    forall p :: p in s.behind ==> p.0 !in s.busy && p.1 in s.g && p.0 in s.g[p.1] && s.w(p.1, p.0) >= 1
  }

  /** While a fact is marked, nothing that depends on it has been evaluated again. */
  ghost predicate FactsPending(s: State) {
    forall x, y :: x in s.deleted && x.fact && x in s.g && y in s.g[x] && y !in s.busy ==> (y, x) in s.behind
  }

  /** Nothing is outstanding where there is no edge, or for a call that is being re-evaluated. */
  ghost predicate Uncharged(s: State) {
    forall x, y :: x in s.g && y in s.g && (y in s.busy || y !in s.g[x]) ==> s.w(x, y) == 0
  }

  ghost predicate Inv(s: State) {
    && Uncharged(s) && Shape(s) && ExactCounts(s) && FlagsRight(s) && DirtyCharged(s) && DueCharged(s) && BusyDue(s)
    && BehindCharged(s) && FactsPending(s)
  }

  ghost predicate Used(s: State, y: CallNode) {
    y !in s.busy && (y in s.counts ==> s.counts[y] == 0)
  }

  /** No table can be used although its call was invalidated, or something the call depends on has changed, since it
      was computed. */
  ghost predicate Current(s: State) {
    && (forall p :: p in s.behind ==> !Used(s, p.0))
    && (forall n :: n in s.direct && s.direct[n] > 0 && !n.fact ==> !Used(s, n))
  }

  // ---------------------------------------------------------------- sums of outstanding invalidations

  lemma {:induction false} SumShift(s: seq<CallNode>, n: CallNode, w: Weights, w2: Weights, up: bool, d: set<CallNode>)
    requires forall x :: x in s ==> w2(x, n) == w(x, n) + Signed(up, if x in d then 1 else 0)
    ensures SumIn(s, n, w2) == SumIn(s, n, w) + Signed(up, Count(s, d))
  {
    if s != [] {
      assert forall x :: x in s[1..] ==> x in s;
      SumShift(s[1..], n, w, w2, up, d);
    }
  }

  lemma {:induction false} SumSame(s: seq<CallNode>, n: CallNode, w: Weights, w2: Weights)
    requires forall x :: x in s ==> w2(x, n) == w(x, n)
    ensures SumIn(s, n, w2) == SumIn(s, n, w)
  {
    if s != [] {
      assert forall x :: x in s[1..] ==> x in s;
      SumSame(s[1..], n, w, w2);
    }
  }

  lemma {:induction false} SumZero(s: seq<CallNode>, n: CallNode, w: Weights)
    requires forall x :: x in s ==> w(x, n) == 0
    ensures SumIn(s, n, w) == 0
  {
    if s != [] {
      assert forall x :: x in s[1..] ==> x in s;
      SumZero(s[1..], n, w);
    }
  }

  lemma {:induction false} SumAtLeast(s: seq<CallNode>, n: CallNode, w: Weights, d: set<CallNode>)
    requires forall x :: x in s ==> w(x, n) >= if x in d then 1 else 0
    ensures SumIn(s, n, w) >= Count(s, d)
  {
    if s != [] {
      assert forall x :: x in s[1..] ==> x in s;
      SumAtLeast(s[1..], n, w, d);
    }
  }

  lemma {:induction false} SumCovers(s: seq<CallNode>, n: CallNode, w: Weights, x: CallNode)
    requires x in s && forall z :: z in s ==> w(z, n) >= 0
    ensures SumIn(s, n, w) >= w(x, n)
  {
    assert forall z :: z in s[1..] ==> z in s;
    if x == s[0] {
      SumAtLeast(s[1..], n, w, {});
    } else {
      SumCovers(s[1..], n, w, x);
    }
  }

  /** An outstanding invalidation along an edge keeps the counter positive. */
  lemma ChargedCount(s: State, x: CallNode, y: CallNode)
    requires Shape(s) && ExactCounts(s) && x in s.g && y in s.g[x] && s.w(x, y) >= 1
    ensures y in s.ins && y in s.counts && s.counts[y] >= 1 && !y.fact
  {
    hide NoDuplicates, Backed;
    BothWays(s.g, s.ins, x, y);
    SumCovers(s.ins[y], y, s.w, x);
  }

  /** Everything that depends on an invalid call is invalid. */
  lemma InvalidSpreads(s: State, x: CallNode, y: CallNode)
    requires Shape(s) && ExactCounts(s) && FlagsRight(s) && DirtyCharged(s) && BehindCharged(s) && FactsPending(s)
    requires s.busy == {} && x in s.deleted && y in s.g[x]
    ensures y in s.deleted
  {
    hide ExactCounts, NoDuplicates;
    assert x in s.g;
    if x.fact {
      assert (y, x) in s.behind;
    } else {
      assert Dirty(s, x);
    }
    ChargedCount(s, x, y);
  }

  lemma InvIsCurrent(s: State)
    requires Inv(s)
    ensures Current(s)
  {
    hide NoDuplicates, DirtyCharged, DueCharged, BusyDue, FactsPending, Uncharged;
    forall p | p in s.behind
      ensures !Used(s, p.0)
    {
      hide ExactCounts;
      ChargedCount(s, p.1, p.0);
    }
    forall n | n in s.direct && s.direct[n] > 0 && !n.fact
      ensures !Used(s, n)
    {
      SumAtLeast(s.ins[n], n, s.w, {});
    }
  }

  lemma FreshInv(s: State)
    requires Fresh(s)
    ensures Inv(s) && Current(s)
  {
    hide NoDuplicates;
    forall n | n in s.ins
      ensures SumIn(s.ins[n], n, s.w) == 0
    {
      SumZero(s.ins[n], n, s.w);
    }
  }

  // ---------------------------------------------------------------- invalidation keeps the invariant

  /** The new calls are closed under dependents within the invalid ones, and all depend on `c`. */
  ghost predicate NewlyInvalid(s: State, c: CallNode, s2: State) {
    var d := s2.deleted - s.deleted;
    && s.deleted + {c} <= s2.deleted <= s.g.Keys
    && ClosedBelow(s.g, d, s2.deleted) && Leading(s.ins, d, c)
    && s.counts.Keys == s2.counts.Keys == s.ins.Keys
    && (forall n :: n in s.ins && !n.fact ==>
          s2.counts[n] == s.counts[n] + (if n == c then 1 else 0) + Count(s.ins[n], d))
  }

  /** What the counters would be is what is outstanding. */
  lemma WideExact(s: State, c: CallNode, s2: State, n: CallNode)
    requires Shape(s) && ExactCounts(s) && InvalidateStep(s, c, s2) && c !in s.deleted && n in s.ins && !n.fact
    ensures s.counts[n] + (if n == c then 1 else 0) + Count(s.ins[n], s2.deleted - s.deleted) ==
            s2.direct[n] + SumIn(s.ins[n], n, s2.w)
  {
    hide NoDuplicates, Backed, InvalidatedCut;
    var d := s2.deleted - s.deleted;
    forall x | x in s.ins[n]
      ensures s2.w(x, n) == s.w(x, n) + if x in d then 1 else 0
    {
      BothWays(s.g, s.ins, x, n);
    }
    SumShift(s.ins[n], n, s.w, s2.w, true, d);
  }

  lemma CutAt(g: Graph, ins: Graph, c: CallNode, m0: set<CallNode>, m: set<CallNode>, k0: Counters, k: Counters,
              list0: seq<CallNode>, list: seq<CallNode>)
    requires c in k0 && c !in m0 && k0.Keys == ins.Keys && InvalidatedCut(g, ins, c, m0, m, k0, k, list0, list)
    ensures m0 + {c} <= m <= m0 + ins.Keys && ClosedBelow(g, m - m0, m) && Leading(ins, m - m0, c)
    ensures k.Keys == k0.Keys
    ensures forall n :: n in ins ==> k[n] == (k0[n] + (if n == c then 1 else 0) + Count(ins[n], m - m0)) % FalseWidth
  {
    hide Count, ClosedBelow, Leading, Tidy, Listed;
  }

  lemma SmallAt(bound: int, s: State, n: CallNode)
    requires Small(bound, s) && n in s.ins && n in s.direct && !n.fact
    ensures s.direct[n] + SumIn(s.ins[n], n, s.w) <= bound
  {
  }

  lemma CountsAt(s: State, n: CallNode)
    requires Shape(s) && ExactCounts(s) && n in s.ins && !n.fact
    ensures n in s.counts && n in s.direct && n in s.g && 0 <= s.counts[n] < FalseWidth
    ensures s.counts[n] == s.direct[n] + SumIn(s.ins[n], n, s.w) && s.direct[n] >= 0
  {
    hide SumIn, Sound;
  }

  lemma StepFrame(s: State, c: CallNode, s2: State)
    requires InvalidateStep(s, c, s2)
    ensures c in s.counts && c in s.direct && c in s.g && s2.g == s.g && s2.ins == s.ins && s.busy == {} == s2.busy
    ensures s2.due == s.due && s2.w == ChargedBy(s.g, s.w, s2.deleted - s.deleted) && s2.direct.Keys == s.direct.Keys
    ensures InvalidatedCut(s.g, s.ins, c, s.deleted, s2.deleted, s.counts, s2.counts, s.affected, s2.affected)
  {
    hide InvalidatedCut;
  }

  /** The counter of `n` does not wrap round. */
  lemma NarrowAt(s: State, c: CallNode, s2: State, n: CallNode, wide: int)
    requires InvalidateStep(s, c, s2) && Shape(s) && ExactCounts(s) && c !in s.deleted && Small(FalseWidth - 1, s2)
    requires n in s.ins && !n.fact && n in s.counts
    requires wide == s.counts[n] + (if n == c then 1 else 0) + Count(s.ins[n], s2.deleted - s.deleted)
    ensures wide % FalseWidth == wide && wide == s2.direct[n] + SumIn(s.ins[n], n, s2.w)
  {
    hide Shape, ExactCounts, InvalidateStep, Small, SumIn, Count;
    StepFrame(s, c, s2);
    CountsAt(s, n);
    WideExact(s, c, s2, n);
    SmallAt(FalseWidth - 1, s2, n);
  }

  lemma ShapeKeys(s: State)
    requires Shape(s)
    ensures s.counts.Keys == s.direct.Keys == s.ins.Keys == s.g.Keys && s.deleted <= s.g.Keys
  {
    hide NoDuplicates, Backed;
  }

  lemma InvalidatedFacts(s: State, c: CallNode, s2: State)
    requires InvalidateStep(s, c, s2) && Shape(s) && ExactCounts(s) && c !in s.deleted && Small(FalseWidth - 1, s2)
    ensures NewlyInvalid(s, c, s2)
  {
    hide Shape, ExactCounts, InvalidateStep, Small, SumIn, Count, InvalidatedCut, ClosedBelow, Leading;
    StepFrame(s, c, s2);
    ShapeKeys(s);
    CutAt(s.g, s.ins, c, s.deleted, s2.deleted, s.counts, s2.counts, s.affected, s2.affected);
    var d := s2.deleted - s.deleted;
    forall n | n in s.ins && !n.fact
      ensures s2.counts[n] == s.counts[n] + (if n == c then 1 else 0) + Count(s.ins[n], d)
    {
      NarrowAt(s, c, s2, n, s.counts[n] + (if n == c then 1 else 0) + Count(s.ins[n], d));
    }
  }

  /** The invalid calls after the step are closed under dependents. */
  lemma InvalidClosed(s: State, c: CallNode, s2: State)
    requires Inv(s) && s.busy == {} && NewlyInvalid(s, c, s2)
    ensures forall x, y :: x in s2.deleted && x in s.g && y in s.g[x] ==> y in s2.deleted
  {
    hide NoDuplicates, ExactCounts, FlagsRight, DirtyCharged, DueCharged, BusyDue, BehindCharged, FactsPending, Shape;
    forall x, y | x in s2.deleted && x in s.g && y in s.g[x]
      ensures y in s2.deleted
    {
      if x in s.deleted { InvalidSpreads(s, x, y); } else { assert x in s2.deleted - s.deleted; }
    }
  }

  /** A call newly invalid, other than `c`, has a newly invalid supporter. */
  lemma NewSupporter(s: State, c: CallNode, s2: State, n: CallNode)
    requires Inv(s) && s.busy == {} && NewlyInvalid(s, c, s2) && n in s2.deleted - s.deleted && n != c
    ensures n in s.ins && Count(s.ins[n], s2.deleted - s.deleted) > 0 && !n.fact
  {
    hide NoDuplicates, ExactCounts, FlagsRight, DirtyCharged, DueCharged, BusyDue, BehindCharged, FactsPending,
        ClosedBelow, Count;
    var d := s2.deleted - s.deleted;
    InvalidClosed(s, c, s2);
    assert Reach(s.ins, n, c);
    var p := FirstStep(s, n, c);
    StaysInside(s.g, c, p, s2.deleted);
    if p in s.deleted { InvalidSpreads(s, p, n); }
    CountBound(s.ins[n], d);
  }

  lemma FirstStep(s: State, n: CallNode, c: CallNode) returns (p: CallNode)
    requires Shape(s) && Reach(s.ins, n, c) && n != c
    ensures n in s.ins && p in s.ins[n] && p in s.g && n in s.g[p] && Reach(s.g, c, p) && !n.fact
  {
    hide NoDuplicates;
    var j: nat :| ReachIn(s.ins, n, c, j);
    p :| p in s.ins[n] && ReachIn(s.ins, p, c, j - 1);
    ReachBackIn(s.g, s.ins, p, c, j - 1);
  }

  lemma CountGrows(s: State, c: CallNode, s2: State, n: CallNode)
    requires Inv(s) && s.busy == {} && NewlyInvalid(s, c, s2) && n in s.ins && !n.fact && c !in s.deleted
    ensures n in s2.deleted <==> s2.counts[n] > 0
  {
    hide NoDuplicates, Backed, DirtyCharged, DueCharged, BusyDue, BehindCharged, FactsPending, ExactCounts, Leading;
    var d := s2.deleted - s.deleted;
    CountsNotNegative(s, n);
    if n in d && n != c { NewSupporter(s, c, s2, n); }
    if n !in s2.deleted {
      forall x | x in s.ins[n]
        ensures x !in d
      {
        BothWays(s.g, s.ins, x, n);
      }
      CountBound(s.ins[n], d);
    }
  }

  lemma InvalidateFlags(s: State, c: CallNode, s2: State)
    requires Inv(s) && InvalidateStep(s, c, s2) && NewlyInvalid(s, c, s2) && c !in s.deleted
    ensures FlagsRight(s2)
  {
    hide Inv, NewlyInvalid, InvalidatedCut;
    forall n | n in s.ins && n in s2.counts && !n.fact
      ensures n in s2.deleted <==> s2.counts[n] > 0
    {
      CountGrows(s, c, s2, n);
    }
  }

  lemma CountsNotNegative(s: State, n: CallNode)
    requires ExactCounts(s) && n in s.ins && !n.fact
    ensures s.counts[n] >= 0
  {
  }

  lemma InvalidateWeights(s: State, c: CallNode, s2: State)
    requires Shape(s) && ExactCounts(s) && Uncharged(s) && InvalidateStep(s, c, s2)
    ensures Uncharged(s2) && forall n, x :: n in s.ins && x in s.ins[n] ==> s2.w(x, n) >= 0
  {
    hide InvalidateStep, NoDuplicates, Backed, Count, SumIn, ExactCounts;
    WeightsNotNegative(s);
    StepFrame(s, c, s2);
    forall n, x | n in s.ins && x in s.ins[n]
      ensures s2.w(x, n) >= 0
    {
      BothWays(s.g, s.ins, x, n);
    }
  }

  lemma NewlyAt(s: State, c: CallNode, s2: State, n: CallNode)
    requires NewlyInvalid(s, c, s2) && n in s.ins && !n.fact
    ensures n in s.counts && n in s2.counts
    ensures s2.counts[n] == s.counts[n] + (if n == c then 1 else 0) + Count(s.ins[n], s2.deleted - s.deleted)
    ensures s2.counts.Keys == s.counts.Keys
  {
    hide ClosedBelow, Leading;
  }

  lemma NewlyKeys(s: State, c: CallNode, s2: State)
    requires NewlyInvalid(s, c, s2)
    ensures s2.counts.Keys == s.counts.Keys == s.ins.Keys
  {
    hide ClosedBelow, Leading;
  }

  lemma DirectGrows(s: State, c: CallNode, s2: State, n: CallNode)
    requires InvalidateStep(s, c, s2) && n in s.direct
    ensures n in s2.direct && s2.direct[n] >= s.direct[n]
  {
    hide InvalidatedCut;
  }

  lemma InvalidateCounts(s: State, c: CallNode, s2: State)
    requires Shape(s) && ExactCounts(s) && Uncharged(s)
    requires InvalidateStep(s, c, s2) && NewlyInvalid(s, c, s2) && c !in s.deleted && Small(FalseWidth - 1, s2)
    ensures ExactCounts(s2) && Uncharged(s2)
  {
    hide Shape, InvalidateStep, Small, SumIn, Count, NewlyInvalid, Uncharged, InvalidatedCut;
    InvalidateWeights(s, c, s2);
    StepFrame(s, c, s2);
    ShapeKeys(s);
    NewlyKeys(s, c, s2);
    forall n | n in s.ins && !n.fact
      ensures 0 <= s2.counts[n] == s2.direct[n] + SumIn(s.ins[n], n, s2.w) < FalseWidth && s2.direct[n] >= 0
    {
      CountsAt(s, n);
      NewlyAt(s, c, s2, n);
      DirectGrows(s, c, s2, n);
      NarrowAt(s, c, s2, n, s2.counts[n]);
    }
  }

  lemma InvalidateCharges(s: State, c: CallNode, s2: State)
    requires Inv(s) && InvalidateStep(s, c, s2) && NewlyInvalid(s, c, s2) && c !in s.deleted
    ensures DirtyCharged(s2)
  {
    hide NoDuplicates, Backed, Shape, FlagsRight, ExactCounts, FactsPending, InvalidatedCut, DueCharged, BusyDue,
        ClosedBelow, Leading;
    WeightsNotNegative(s);
    forall x, y | x in s.g && Dirty(s2, x) && y in s.g[x]
      ensures s2.w(x, y) >= Owed(s2, y, x)
    {
      if x in s.deleted {
        assert Dirty(s, x) && s2.w(x, y) == s.w(x, y) >= Owed(s, y, x);
      } else {
        assert s2.w(x, y) == s.w(x, y) + 1;
      }
    }
  }

  lemma InvalidateDebts(s: State, c: CallNode, s2: State)
    requires Inv(s) && InvalidateStep(s, c, s2) && NewlyInvalid(s, c, s2) && c !in s.deleted
    ensures BehindCharged(s2) && DueCharged(s2) && BusyDue(s2)
  {
    hide NoDuplicates, Backed, Shape, FlagsRight, ExactCounts, FactsPending, InvalidatedCut, DirtyCharged, ClosedBelow,
        Leading;
    WeightsNotNegative(s);
  }

  lemma WeightsNotNegative(s: State)
    requires Shape(s) && ExactCounts(s)
    ensures forall x, y :: x in s.g && y in s.g[x] ==> s.w(x, y) >= 0
  {
    hide NoDuplicates, Backed;
    forall x, y | x in s.g && y in s.g[x]
      ensures s.w(x, y) >= 0
    {
      BothWays(s.g, s.ins, x, y);
    }
  }

  lemma InvalidateFacts(s: State, c: CallNode, s2: State)
    requires Inv(s) && InvalidateStep(s, c, s2) && NewlyInvalid(s, c, s2) && c !in s.deleted
    ensures FactsPending(s2) && Shape(s2)
  {
    hide NoDuplicates, FlagsRight, ExactCounts, DirtyCharged, BehindCharged, DueCharged, BusyDue, InvalidatedCut,
        Uncharged;
    hide Sound, Count, ClosedBelow, Leading;
    forall x | x in s2.deleted && x.fact
      ensures x == c || x in s.deleted
    {
      if x !in s.deleted && x != c { NewSupporter(s, c, s2, x); }
    }
  }

  lemma InvalidateKeeps(s: State, c: CallNode, s2: State)
    requires Inv(s) && InvalidateStep(s, c, s2) && Small(FalseWidth - 1, s2)
    ensures Inv(s2)
  {
    if c in s.deleted {
      RepeatedInvalidation(s, c, s2);
    } else {
      hide Shape, ExactCounts, FlagsRight, DirtyCharged, DueCharged, BusyDue, BehindCharged, FactsPending, Uncharged;
      hide InvalidateStep, NewlyInvalid, Small;
      InvalidatedFacts(s, c, s2);
      InvalidateFlags(s, c, s2);
      InvalidateCounts(s, c, s2);
      InvalidateCharges(s, c, s2);
      InvalidateDebts(s, c, s2);
      InvalidateFacts(s, c, s2);
    }
  }

  lemma RepeatedFacts(s: State, c: CallNode, s2: State)
    requires InvalidateStep(s, c, s2) && c in s.deleted
    ensures s2.deleted == s.deleted && s2.direct == s.direct && s2.counts == Cut(s.counts, FalseWidth)
    ensures forall x, y :: s2.w(x, y) == s.w(x, y)
  {
    assert s2.deleted - s.deleted == {};
  }

  lemma SameBehind(s: State, c: CallNode, s2: State)
    requires InvalidateStep(s, c, s2) && c in s.deleted && FactsPending(s)
    ensures s2.behind == s.behind
  {
  }

  lemma RepeatedInvalidation(s: State, c: CallNode, s2: State)
    requires Inv(s) && InvalidateStep(s, c, s2) && c in s.deleted
    ensures Inv(s2)
  {
    hide Shape, ExactCounts, FlagsRight, DirtyCharged, DueCharged, BusyDue, BehindCharged, Uncharged, InvalidateStep,
        SumIn;
    RepeatedFacts(s, c, s2);
    SameBehind(s, c, s2);
    StepFrame(s, c, s2);
    ShapeKeys(s);
    forall n | n in s.ins
      ensures SumIn(s.ins[n], n, s2.w) == SumIn(s.ins[n], n, s.w)
      ensures !n.fact ==> s2.counts[n] == s.counts[n]
    {
      SumSame(s.ins[n], n, s.w, s2.w);
      if !n.fact { CountsAt(s, n); }
    }
    RepeatedKeeps(s, s2);
  }

  /** Nothing that the invariant speaks of has changed. */
  lemma RepeatedKeeps(s: State, s2: State)
    requires Inv(s) && s2.g == s.g && s2.ins == s.ins && s2.deleted == s.deleted && s2.busy == s.busy && s2.due == s.due
    requires s2.behind == s.behind && s2.direct == s.direct && s2.counts.Keys == s.counts.Keys
    requires forall n :: n in s.ins && !n.fact && n in s.counts ==> s2.counts[n] == s.counts[n]
    requires forall x, y :: s2.w(x, y) == s.w(x, y)
    requires forall n :: n in s.ins ==> SumIn(s.ins[n], n, s2.w) == SumIn(s.ins[n], n, s.w)
    requires s.busy == {}
    ensures Inv(s2)
  {
    hide Sound, SumIn;
  }

  // ---------------------------------------------------------------- the other steps

  lemma FetchKeeps(s: State, s2: State)
    requires Inv(s) && FetchStep(s, s2)
    ensures Inv(s2)
  {
    hide Sound, ExactCounts;
    assert ExactCounts(s2) by { SameExact(s, s2); }
  }

  lemma SameExact(s: State, s2: State)
    requires ExactCounts(s) && s2.counts == s.counts && s2.direct == s.direct && s2.ins == s.ins && s2.w == s.w
    ensures ExactCounts(s2)
  {
  }

  lemma StartCounts(s: State, c: CallNode, s2: State)
    requires Shape(s) && ExactCounts(s) && Uncharged(s) && StartStep(s, c, s2)
    ensures Shape(s2) && ExactCounts(s2) && Uncharged(s2)
  {
    hide Mirrored, NoDuplicates, SumIn;
    forall n | n in s.ins && !n.fact
      ensures 0 <= s2.counts[n] == s2.direct[n] + SumIn(s.ins[n], n, s2.w) < FalseWidth
    {
      if n == c {
        SumZero(s.ins[n], n, s2.w);
      } else {
        SumSame(s.ins[n], n, s.w, s2.w);
      }
    }
  }

  lemma StartMarked(s: State, c: CallNode, s2: State)
    requires Shape(s) && FlagsRight(s) && StartStep(s, c, s2)
    ensures c in s.deleted && s2.deleted == s.deleted && c in s.ins
  {
  }

  lemma StartCharges(s: State, c: CallNode, s2: State)
    requires Inv(s) && StartStep(s, c, s2)
    ensures DirtyCharged(s2) && DueCharged(s2) && BehindCharged(s2)
  {
    hide Shape, ExactCounts, FlagsRight, BusyDue, FactsPending, Uncharged;
    StartMarked(s, c, s2);
  }

  lemma StartFlags(s: State, c: CallNode, s2: State)
    requires Inv(s) && StartStep(s, c, s2)
    ensures FlagsRight(s2) && BusyDue(s2) && FactsPending(s2)
  {
    hide Backed, NoDuplicates, ExactCounts, DirtyCharged, BehindCharged, DueCharged, Uncharged;
    StartMarked(s, c, s2);
  }

  lemma StartKeeps(s: State, c: CallNode, s2: State)
    requires Inv(s) && StartStep(s, c, s2)
    ensures Inv(s2)
  {
    hide Shape, ExactCounts, FlagsRight, DirtyCharged, DueCharged, BusyDue, Uncharged, BehindCharged, FactsPending,
        StartStep;
    StartCounts(s, c, s2);
    StartCharges(s, c, s2);
    StartFlags(s, c, s2);
  }

  // ---------------------------------------------------------------- the end of a re-evaluation

  /** A busy call, or an invalid one, that is discharged has an outstanding invalidation along each live edge. */
  ghost predicate Settling(s: State, c: CallNode, d: set<CallNode>) {
    && c in s.busy && c !in d
    && (forall x :: x in d ==> x in s.counts && s.counts[x] > 0 && x in s.ins && !x.fact)
  }

  lemma SettlingCharged(s: State, c: CallNode, d: set<CallNode>, x: CallNode, y: CallNode)
    requires Inv(s) && Settling(s, c, d) && x in d + {c} && x in s.g && y in s.g[x] && y in s.counts && s.counts[y] > 0
    ensures s.w(x, y) >= Owed(s, y, x) && y !in s.busy
  {
    hide NoDuplicates, Backed, ExactCounts, BehindCharged, FactsPending;
    BothWays(s.g, s.ins, x, y);
    assert y !in s.busy;
    if x != c { assert Dirty(s, x); }
  }

  /** Finding `c` unchanged gives back exactly the invalidations that are outstanding because of `c` and the
      calls that this makes valid. */
  lemma SettlingCounts(s: State, c: CallNode, d: set<CallNode>, k: Counters, n: CallNode)
    requires Inv(s) && Settling(s, c, d) && Lowered(s.ins, s.counts, k, d + {c}) && n in s.ins && !n.fact
    ensures k[n] == s.direct[n] + SumIn(s.ins[n], n, DischargedBy(s.g, s.w, s.counts, d + {c}))
    ensures k[n] == if s.counts[n] > 0 then s.counts[n] - Count(s.ins[n], d + {c}) else s.counts[n]
  {
    hide NoDuplicates, Backed, DirtyCharged, BehindCharged, DueCharged, BusyDue, Uncharged, FactsPending, FlagsRight;
    var w2 := DischargedBy(s.g, s.w, s.counts, d + {c});
    CountsNotNegative(s, n);
    forall x | x in s.ins[n]
      ensures x in s.g && n in s.g[x]
    {
      BothWays(s.g, s.ins, x, n);
    }
    if s.counts[n] > 0 {
      forall x | x in s.ins[n]
        ensures s.w(x, n) >= if x in d + {c} then 1 else 0
      {
        if x in d + {c} { SettlingCharged(s, c, d, x, n); }
      }
      SumAtLeast(s.ins[n], n, s.w, d + {c});
      SumShift(s.ins[n], n, s.w, w2, false, d + {c});
    } else {
      SumSame(s.ins[n], n, s.w, w2);
    }
  }

  /** Nothing is outstanding for `c`, or noted about it. */
  ghost predicate Idle(s: State, c: CallNode) {
    && c in s.g && c in s.ins && !c.fact && c in s.counts && s.counts[c] == 0 && c in s.direct && s.direct[c] == 0
    && (forall x :: x in s.g ==> s.w(x, c) == 0)
    && (forall p :: p in s.due ==> p.0 != c) && (forall p :: p in s.behind ==> p.0 != c)
  }

  lemma BusyIdle(s: State, c: CallNode)
    requires Inv(s) && c in s.busy
    ensures Idle(s, c)
  {
    hide Backed, NoDuplicates, SumIn, DirtyCharged, BusyDue, FactsPending;
    SumAtLeast(s.ins[c], c, s.w, {});
  }

  lemma ApartIdle(s: State, c: CallNode)
    requires Inv(s) && c in s.g && c in s.ins && s.g[c] == [] && s.ins[c] == [] && !c.fact && c !in s.busy &&
             c !in s.deleted
    ensures Idle(s, c)
  {
    hide NoDuplicates, SumIn, DirtyCharged, BusyDue, FactsPending;
    forall x | x in s.g
      ensures s.w(x, c) == 0 && c !in s.g[x]
    {
      BothWays(s.g, s.ins, x, c);
    }
    SumAtLeast(s.ins[c], c, s.w, {});
    assert s.direct[c] >= 0;
    assert SumIn(s.ins[c], c, s.w) == 0 by { SumZero(s.ins[c], c, s.w); }
  }

  lemma RewireShape(s: State, c: CallNode, supports: seq<CallNode>, s2: State)
    requires Shape(s) && !c.fact && Rewired(s, c, supports, s2)
    ensures Shape(s.(g := s2.g, ins := s2.ins))
  {
    hide NoDuplicates, Backed;
    assert Mirrored(s2.g, s2.ins);
  }

  lemma RewireCharges(s: State, c: CallNode, supports: seq<CallNode>, s2: State)
    requires Inv(s) && Idle(s, c) && Rewired(s, c, supports, s2)
    requires c in s.busy || forall x :: x in supports ==> !Dirty(s, x)
    ensures DirtyCharged(s.(g := s2.g, ins := s2.ins)) && DueCharged(s.(g := s2.g, ins := s2.ins))
    ensures BehindCharged(s.(g := s2.g, ins := s2.ins))
  {
    hide Mirrored, ExactCounts, FlagsRight, BusyDue, FactsPending, Sound, Uncharged;
    EdgesTo(s, c, supports, s2);
    var r := s.(g := s2.g, ins := s2.ins);
    assert forall x :: Dirty(r, x) <==> Dirty(s, x);
  }

  lemma EdgesTo(s: State, c: CallNode, supports: seq<CallNode>, s2: State)
    requires Rewired(s, c, supports, s2)
    ensures forall x :: x in s2.g ==> (c in s2.g[x] <==> x in supports)
    ensures s2.ins == s.ins[c := supports] && c in s2.ins
  {
    hide NoDuplicates;
    forall x | x in s2.g
      ensures c in s2.g[x] <==> x in supports
    {
      BothWays(s2.g, s2.ins, x, c);
    }
  }

  lemma RewireFlags(s: State, c: CallNode, supports: seq<CallNode>, s2: State)
    requires Inv(s) && Idle(s, c) && Rewired(s, c, supports, s2)
    ensures FlagsRight(s.(g := s2.g, ins := s2.ins)) && BusyDue(s.(g := s2.g, ins := s2.ins))
  {
    hide Mirrored, ExactCounts, DirtyCharged, BehindCharged, DueCharged, FactsPending, Uncharged, Shape;
    SameKeys(s);
    EdgesTo(s, c, supports, s2);
  }

  lemma RewireUncharged(s: State, c: CallNode, supports: seq<CallNode>, s2: State)
    requires Uncharged(s) && Idle(s, c) && Rewired(s, c, supports, s2)
    ensures Uncharged(s.(g := s2.g, ins := s2.ins))
  {
    hide Mirrored;
  }

  lemma RewireFacts(s: State, c: CallNode, supports: seq<CallNode>, s2: State)
    requires FactsPending(s) && Rewired(s, c, supports, s2)
    requires c in s.busy || NoMarkedFact(s, supports)
    ensures FactsPending(s.(g := s2.g, ins := s2.ins))
  {
    hide Mirrored;
    EdgesTo(s, c, supports, s2);
  }

  lemma Rewire(s: State, c: CallNode, supports: seq<CallNode>, s2: State)
    requires Inv(s) && Idle(s, c) && Rewired(s, c, supports, s2)
    requires c in s.busy || (NoMarkedFact(s, supports) && forall x :: x in supports ==> !Dirty(s, x))
    ensures Inv(s.(g := s2.g, ins := s2.ins))
  {
    hide Shape, ExactCounts, FlagsRight, DirtyCharged, DueCharged, BusyDue, Uncharged, BehindCharged, FactsPending;
    hide Rewired, NoMarkedFact;
    RewireShape(s, c, supports, s2);
    RewireCounts(s, c, supports, s2);
    RewireCharges(s, c, supports, s2);
    RewireFlags(s, c, supports, s2);
    RewireUncharged(s, c, supports, s2);
    RewireFacts(s, c, supports, s2);
  }

  lemma SupportsIn(s: State, c: CallNode, supports: seq<CallNode>, s2: State)
    requires Rewired(s, c, supports, s2)
    ensures forall x :: x in supports ==> x in s.g
  {
    hide NoDuplicates;
    assert s2.ins[c] == supports;
    forall x | x in supports
      ensures x in s.g
    {
      BothWays(s2.g, s2.ins, x, c);
    }
  }

  lemma ExactAfter(s: State, c: CallNode, supports: seq<CallNode>, r: State)
    requires ExactCounts(s) && c in s.ins && c in s.counts && s.counts[c] == 0 == s.direct[c]
    requires SumIn(supports, c, s.w) == 0
    requires r.ins == s.ins[c := supports] && r.counts == s.counts && r.direct == s.direct && r.w == s.w
    requires forall x :: x in supports ==> s.w(x, c) == 0
    ensures ExactCounts(r)
  {
    hide SumIn;
    forall n | n in r.ins && !n.fact
      ensures 0 <= r.counts[n] == r.direct[n] + SumIn(r.ins[n], n, r.w) < FalseWidth
    {
      if n != c { assert r.ins[n] == s.ins[n]; }
    }
  }

  lemma RewireCounts(s: State, c: CallNode, supports: seq<CallNode>, s2: State)
    requires Inv(s) && Idle(s, c) && Rewired(s, c, supports, s2)
    ensures ExactCounts(s.(g := s2.g, ins := s2.ins))
  {
    hide Mirrored, Shape, FlagsRight, Uncharged, ExactCounts, DirtyCharged, BehindCharged, DueCharged, BusyDue,
        FactsPending, SumIn, Rewired;
    EdgesTo(s, c, supports, s2);
    SupportsIn(s, c, supports, s2);
    SameKeys(s);
    SumZero(supports, c, s.w);
    ExactAfter(s, c, supports, s.(g := s2.g, ins := s2.ins));
  }

  lemma SameKeys(s: State)
    requires Shape(s) && ExactCounts(s)
    ensures s.counts.Keys == s.direct.Keys == s.ins.Keys == s.g.Keys
  {
  }

  ghost predicate After(s: State, c: CallNode, d: set<CallNode>, s2: State) {
    s2 == s.(counts := s2.counts, deleted := s.deleted - d - {c}, busy := s.busy - {c}, due :=
             (set p | p in s.due && p.1 != c),
             w := DischargedBy(s.g, s.w, s.counts, d + {c}))
  }

  ghost predicate SettledNumbers(ins: Graph, direct: Counters, w: Weights, k0: Counters, k: Counters, d: set<CallNode>)
  {
    && k.Keys == k0.Keys == direct.Keys == ins.Keys
    && (forall n :: n in ins && !n.fact ==> 0 <= k[n] == direct[n] + SumIn(ins[n], n, w) <= k0[n])
    && (forall n :: n in ins && !n.fact ==> (n in d <==> k0[n] > 0 && k[n] == 0))
  }

  /** The state `s2` follows from `s` when the re-evaluation of `c` ends and `d` become valid with it. */
  ghost predicate Settled(s: State, c: CallNode, d: set<CallNode>, s2: State) {
    Settling(s, c, d) && After(s, c, d, s2) && SettledNumbers(s.ins, s.direct, s2.w, s.counts, s2.counts, d)
  }

  lemma ReportSettling(s: State, c: CallNode, k: Counters, d: set<CallNode>)
    requires Inv(s) && c in s.busy && Reported(s.ins, c, s.counts, k, d)
    ensures Settling(s, c, d)
  {
    hide NoDuplicates, Backed, DirtyCharged, BehindCharged, DueCharged, BusyDue, Uncharged, FactsPending, Least, SumIn;
    forall x | x in d
      ensures s.counts[x] > 0 && x in s.ins && !x.fact
    {
      assert Count([], d + {c}) == 0;
    }
  }

  lemma SettlesAt(s: State, c: CallNode, d: set<CallNode>, k: Counters, n: CallNode)
    requires Inv(s) && c in s.busy && Reported(s.ins, c, s.counts, k, d) && n in s.ins && !n.fact
    ensures n in k && k[n] == s.direct[n] + SumIn(s.ins[n], n, DischargedBy(s.g, s.w, s.counts, d + {c}))
    ensures 0 <= k[n] <= s.counts[n] && (n in d <==> s.counts[n] > 0 && k[n] == 0)
  {
    ReportSettling(s, c, k, d);
    SettlingCounts(s, c, d, k, n);
    CountsNotNegative(s, n);
    ReportedAt(s.ins, c, s.counts, k, d, n);
    hide *;
  }

  lemma ReportedAt(ins: Graph, c: CallNode, k0: Counters, k: Counters, d: set<CallNode>, n: CallNode)
    requires Reported(ins, c, k0, k, d) && n in ins && k0[n] >= 0
    ensures n in k && 0 <= k[n] <= k0[n] && (n in d <==> k0[n] > 0 && k[n] <= 0)
  {
    hide Least, Count;
  }

  lemma InvKeys(s: State)
    requires Inv(s)
    ensures s.counts.Keys == s.direct.Keys == s.ins.Keys == s.g.Keys
  {
    hide Sound;
  }

  lemma ReportedKeys(ins: Graph, c: CallNode, k0: Counters, k: Counters, d: set<CallNode>)
    requires Reported(ins, c, k0, k, d)
    ensures k.Keys == k0.Keys == ins.Keys
  {
  }

  lemma ReportNumbers(s: State, c: CallNode, d: set<CallNode>, k: Counters)
    requires Inv(s) && c in s.busy && Reported(s.ins, c, s.counts, k, d)
    ensures SettledNumbers(s.ins, s.direct, DischargedBy(s.g, s.w, s.counts, d + {c}), s.counts, k, d)
  {
    hide Inv, Reported, SumIn, DischargedBy;
    var w2 := DischargedBy(s.g, s.w, s.counts, d + {c});
    InvKeys(s);
    ReportedKeys(s.ins, c, s.counts, k, d);
    forall n | n in s.ins && !n.fact
      ensures 0 <= k[n] == s.direct[n] + SumIn(s.ins[n], n, w2) <= s.counts[n]
      ensures n in d <==> s.counts[n] > 0 && k[n] == 0
    {
      SettlesAt(s, c, d, k, n);
    }
  }

  lemma ReportSettles(s: State, c: CallNode, d: set<CallNode>, s2: State)
    requires Inv(s) && c in s.busy && Reported(s.ins, c, s.counts, s2.counts, d)
    requires After(s, c, d, s2)
    ensures Settled(s, c, d, s2)
  {
    hide Inv, Reported, SettledNumbers, DischargedBy, Settling;
    ReportSettling(s, c, s2.counts, d);
    ReportNumbers(s, c, d, s2.counts);
  }

  lemma SettledWeights(s: State, c: CallNode, d: set<CallNode>, n: CallNode, x: CallNode)
    requires Inv(s) && Settling(s, c, d) && n in s.ins && x in s.ins[n]
    ensures DischargedBy(s.g, s.w, s.counts, d + {c})(x, n) >= 0
  {
    hide NoDuplicates, Backed, DirtyCharged, BehindCharged, FlagsRight, DueCharged, BusyDue, FactsPending, SumIn,
        Settling;
    BothWays(s.g, s.ins, x, n);
    if x in d + {c} && s.counts[n] > 0 { SettlingCharged(s, c, d, x, n); }
  }

  lemma SettledCounts(s: State, c: CallNode, d: set<CallNode>, s2: State)
    requires Inv(s) && Settled(s, c, d, s2)
    ensures ExactCounts(s2) && Shape(s2)
  {
    hide Sound, DirtyCharged, BehindCharged, FlagsRight, DueCharged, BusyDue, FactsPending, SumIn, Uncharged,
        DischargedBy;
    forall n, x | n in s.ins && x in s.ins[n]
      ensures s2.w(x, n) >= 0
    {
      hide ExactCounts, Shape;
      SettledWeights(s, c, d, n, x);
    }
  }

  lemma SettledBusy(s: State, c: CallNode, d: set<CallNode>, s2: State)
    requires Inv(s) && Settled(s, c, d, s2)
    ensures Uncharged(s2)
  {
    hide Sound, DirtyCharged, BehindCharged, ExactCounts, DueCharged, BusyDue, FactsPending, SumIn;
    forall x, y | x in s.g && y in s.g && (y in s2.busy || y !in s.g[x])
      ensures s2.w(x, y) == 0
    {
      assert s.w(x, y) == 0;
      if y in s2.busy { assert s.counts[y] == 0; }
    }
  }

  lemma SettledCharges(s: State, c: CallNode, d: set<CallNode>, s2: State)
    requires Inv(s) && Settled(s, c, d, s2) && c in s.ins && forall x :: x in s.ins[c] ==> !Dirty(s, x)
    ensures DirtyCharged(s2) && DueCharged(s2)
  {
    hide NoDuplicates, Backed, BehindCharged, FlagsRight, ExactCounts, BusyDue, FactsPending, SumIn, Uncharged;
    forall x, y | x in s.g && Dirty(s2, x) && y in s.g[x] && y !in s2.busy
      ensures s2.w(x, y) >= Owed(s2, y, x)
    {
      assert Dirty(s, x) && x !in d + {c};
      BothWays(s.g, s.ins, x, y);
      assert y != c;
    }
    forall p | p in s2.due
      ensures s2.w(p.1, p.0) >= Owed(s2, p.0, p.1)
    {
      assert p.1 !in d + {c} by { BusyNotSettled(s, c, d, p.1); }
    }
  }

  lemma BusyNotSettled(s: State, c: CallNode, d: set<CallNode>, x: CallNode)
    requires Shape(s) && FlagsRight(s) && Settling(s, c, d) && x in s.busy
    ensures x !in d
  {
  }

  lemma SettledBehind(s: State, c: CallNode, d: set<CallNode>, s2: State)
    requires Inv(s) && Settled(s, c, d, s2)
    ensures BehindCharged(s2)
  {
    SameKeys(s);
    forall p | p in s.behind
      ensures p.0 !in s2.busy && s2.w(p.1, p.0) >= 1
    {
      ChargedCount(s, p.1, p.0);
      hide NoDuplicates, Backed, ExactCounts, SumIn, FactsPending, BusyDue, DirtyCharged, DueCharged, FlagsRight;
      assert p.0 !in s.busy;
      if p.1 in d + {c} { SettlingCharged(s, c, d, p.1, p.0); }
    }
  }

  lemma SettledFlags(s: State, c: CallNode, d: set<CallNode>, s2: State)
    requires Inv(s) && Settled(s, c, d, s2)
    ensures FlagsRight(s2)
  {
    hide NoDuplicates, Backed, BehindCharged, BusyDue, FactsPending, SumIn, Uncharged, DirtyCharged, DueCharged,
        DischargedBy;
    forall n | n in s.ins && !n.fact
      ensures n in s2.busy ==> n in s2.deleted && s2.counts[n] == 0
      ensures n !in s2.busy ==> (n in s2.deleted <==> s2.counts[n] > 0)
    {
      if n in s.busy { BusyNotSettled(s, c, d, n); }
    }
  }

  lemma DependentNoFact(s: State, x: CallNode, y: CallNode)
    requires Shape(s) && x in s.g && y in s.g[x]
    ensures y in s.ins && x in s.ins[y] && !y.fact && y in s.counts
  {
    hide NoDuplicates;
    BothWays(s.g, s.ins, x, y);
  }

  lemma SettledRest(s: State, c: CallNode, d: set<CallNode>, s2: State)
    requires Inv(s) && Settled(s, c, d, s2) && c in s.ins && NoMarkedFact(s, s.ins[c])
    ensures BusyDue(s2) && FactsPending(s2)
  {
    hide Sound, BehindCharged, FlagsRight, ExactCounts, SumIn, Uncharged, DirtyCharged, DueCharged, DischargedBy;
    forall x, y | x in s2.busy && x in s2.g && y in s2.g[x] && y in s2.counts && (y, x) !in s2.due
      ensures s2.counts[y] == 0
    {
      DependentNoFact(s, x, y);
      assert (y, x) !in s.due;
    }
    forall x, y | x in s2.deleted && x.fact && x in s2.g && y in s2.g[x] && y !in s2.busy
      ensures (y, x) in s2.behind
    {
      DependentNoFact(s, x, y);
    }
  }

  lemma SettledKeeps(s: State, c: CallNode, d: set<CallNode>, s2: State)
    requires Inv(s) && Settled(s, c, d, s2) && c in s.ins && NoMarkedFact(s, s.ins[c])
    requires forall x :: x in s.ins[c] ==> !Dirty(s, x)
    ensures Inv(s2)
  {
    hide Shape, ExactCounts, FlagsRight, DirtyCharged, DueCharged, BusyDue, Uncharged, BehindCharged, FactsPending,
        Settled;
    SettledCounts(s, c, d, s2);
    SettledBusy(s, c, d, s2);
    SettledCharges(s, c, d, s2);
    SettledBehind(s, c, d, s2);
    SettledFlags(s, c, d, s2);
    SettledRest(s, c, d, s2);
  }

  ghost predicate ChangedBy(s: State, c: CallNode, s2: State) {
    && c in s.busy && c in s.ins && (forall x :: x in s.ins[c] ==> !Dirty(s, x)) && NoMarkedFact(s, s.ins[c])
    && s2 == s.(deleted := s.deleted - {c}, busy := s.busy - {c}, due := (set p | p in s.due && p.1 != c),
                behind := s.behind + (set p | p in s.due && p.1 == c))
  }

  lemma ChangedFlags(s: State, c: CallNode, s2: State)
    requires Inv(s) && ChangedBy(s, c, s2)
    ensures FlagsRight(s2) && BusyDue(s2)
  {
    hide Mirrored, ExactCounts, DirtyCharged, BehindCharged, DueCharged, Uncharged, FactsPending;
    BusyIdle(s, c);
  }

  lemma ChangedRest(s: State, c: CallNode, s2: State)
    requires Inv(s) && ChangedBy(s, c, s2)
    ensures Shape(s2) && Uncharged(s2) && FactsPending(s2)
  {
    hide Mirrored, ExactCounts, DirtyCharged, BehindCharged, DueCharged, BusyDue, FlagsRight;
    forall x, y | x in s2.deleted && x.fact && x in s2.g && y in s2.g[x] && y !in s2.busy
      ensures (y, x) in s2.behind
    {
      DependentNoFact(s, x, y);
    }
  }

  lemma ChangedCharges(s: State, c: CallNode, s2: State)
    requires Inv(s) && ChangedBy(s, c, s2)
    ensures DirtyCharged(s2) && DueCharged(s2) && BehindCharged(s2)
  {
    hide Backed, NoDuplicates, ExactCounts, FlagsRight, BusyDue, Uncharged, FactsPending;
    forall x, y | x in s.g && Dirty(s2, x) && y in s.g[x] && y !in s2.busy
      ensures s2.w(x, y) >= Owed(s2, y, x)
    {
      assert Dirty(s, x);
      BothWays(s.g, s.ins, x, y);
    }
  }

  /** Found changed, `c` leaves behind the calls last evaluated before it. */
  lemma ChangedKeeps(s: State, c: CallNode, s2: State)
    requires Inv(s) && ChangedBy(s, c, s2)
    ensures Inv(s2)
  {
    hide Shape, ExactCounts, FlagsRight, DirtyCharged, BehindCharged, DueCharged, BusyDue, Uncharged, FactsPending;
    ChangedCharges(s, c, s2);
    ChangedFlags(s, c, s2);
    ChangedRest(s, c, s2);
    SameExact(s, s2);
  }

  lemma FinishKeeps(s: State, c: CallNode, changed: bool, supports: seq<CallNode>, s2: State)
    requires Inv(s) && FinishStep(s, c, changed, supports, s2) && NoMarkedFact(s, supports)
    ensures Inv(s2)
  {
    hide Inv, Reported, Mirrored, Idle;
    CleanIsClean(s, supports);
    BusyIdle(s, c);
    Rewire(s, c, supports, s2);
    var r := s.(g := s2.g, ins := s2.ins);
    assert c in r.ins && r.ins[c] == supports && forall x :: Dirty(r, x) <==> Dirty(s, x);
    if changed {
      ChangedKeeps(r, c, s2);
    } else {
      var d := Zeros(s2.counts) - Zeros(s.counts);
      ReportSettles(r, c, d, s2);
      SettledKeeps(r, c, d, s2);
    }
  }

  lemma CleanIsClean(s: State, supports: seq<CallNode>)
    requires Inv(s) && forall x :: x in supports ==> !NeedsWork(s, x)
    ensures forall x :: x in supports ==> !Dirty(s, x)
  {
    hide Backed, NoDuplicates, SumIn, DirtyCharged, BusyDue, FactsPending, BehindCharged, DueCharged, Uncharged;
  }

  lemma CreateKeeps(s: State, c: CallNode, supports: seq<CallNode>, s2: State)
    requires Inv(s) && CreateStep(s, c, supports, s2) && NoMarkedFact(s, supports)
    ensures Inv(s2)
  {
    CleanIsClean(s, supports);
    ApartIdle(s, c);
    Rewire(s, c, supports, s2);
  }

  // ---------------------------------------------------------------- abolishing

  /** When nothing is invalid, nothing is outstanding. */
  lemma Quiet(s: State)
    requires Inv(s) && s.busy == {} && s.deleted == {}
    ensures s.behind == {} && s.due == {}
    ensures forall x, y :: x in s.g && y in s.g ==> s.w(x, y) == 0
    ensures forall n :: n in s.ins && !n.fact ==> n in s.counts && n in s.direct && s.counts[n] == 0 == s.direct[n]
  {
    hide NoDuplicates, SumIn, ExactCounts, FlagsRight, FactsPending, DirtyCharged, Uncharged;
    SameKeys(s);
    QuietCounts(s);
    QuietWeights(s);
  }

  lemma QuietWeights(s: State)
    requires Inv(s) && s.busy == {} && s.deleted == {}
    ensures forall x, y :: x in s.g && y in s.g ==> s.w(x, y) == 0
  {
    hide NoDuplicates, Backed, SumIn, FactsPending, BehindCharged, DueCharged;
    SameKeys(s);
    forall x, y | x in s.g && y in s.g
      ensures s.w(x, y) == 0
    {
      if y in s.g[x] && s.w(x, y) != 0 {
        BothWays(s.g, s.ins, x, y);
        ChargedCount(s, x, y);
      }
    }
  }

  lemma QuietCounts(s: State)
    requires Inv(s) && s.busy == {} && s.deleted == {}
    ensures forall n :: n in s.ins && !n.fact ==> n in s.counts && n in s.direct && s.counts[n] == 0 == s.direct[n]
  {
    hide NoDuplicates, Backed, FactsPending, BehindCharged, DirtyCharged, DueCharged, Uncharged;
    SameKeys(s);
    forall n | n in s.ins && !n.fact
      ensures s.counts[n] == 0 == s.direct[n]
    {
      SumAtLeast(s.ins[n], n, s.w, {});
    }
  }

  lemma LeftAt(g: Graph, gone: set<CallNode>, n: CallNode)
    requires n in g
    ensures n in WithoutCalls(g, gone)
    ensures forall m :: m in WithoutCalls(g, gone)[n] <==> n !in gone && m in g[n] && m !in gone
    ensures NoDuplicates(g[n]) ==> NoDuplicates(WithoutCalls(g, gone)[n])
  {
    hide Abolish.Filter;
    Abolish.FilterFacts(g[n], gone);
  }

  lemma LeftBelow(ins: Graph, gone: set<CallNode>, n: CallNode)
    requires n in ins
    ensures n in WithoutSupports(ins, gone) && WithoutSupports(ins, gone)[n] == if n in gone then [] else ins[n]
  {
  }

  lemma LeftForward(g: Graph, ins: Graph, d: set<CallNode>, n: CallNode, m: CallNode)
    requires Sound(g, ins) && Abolish.ClosedAbove(g, d) && n in g && m in WithoutCalls(g, Abolish.Gone(d))[n]
    ensures m in WithoutSupports(ins, Abolish.Gone(d)) && n in WithoutSupports(ins, Abolish.Gone(d))[m]
  {
    var gone := Abolish.Gone(d);
    MirroredKeys(g, ins);
    hide Sound, Abolish.ClosedAbove, WithoutCalls, WithoutSupports, Abolish.Gone;
    LeftAt(g, gone, n);
    Abolish.EdgeSurvives(g, ins, d, n, m);
    LeftBelow(ins, gone, m);
  }

  lemma LeftBackward(g: Graph, ins: Graph, d: set<CallNode>, n: CallNode, m: CallNode)
    requires Sound(g, ins) && Abolish.ClosedAbove(g, d) && n in ins && m in WithoutSupports(ins, Abolish.Gone(d))[n]
    ensures m in WithoutCalls(g, Abolish.Gone(d)) && n in WithoutCalls(g, Abolish.Gone(d))[m]
  {
    var gone := Abolish.Gone(d);
    MirroredKeys(g, ins);
    hide Sound, Abolish.ClosedAbove, WithoutCalls, WithoutSupports, Abolish.Gone;
    LeftBelow(ins, gone, n);
    Abolish.EdgeSurvives(g, ins, d, m, n);
    LeftAt(g, gone, m);
  }

  lemma LeftLists(g: Graph, ins: Graph, gone: set<CallNode>, n: CallNode)
    requires Sound(g, ins) && n in g
    ensures n in WithoutCalls(g, gone) && n in WithoutSupports(ins, gone) && n in ins
    ensures NoDuplicates(WithoutCalls(g, gone)[n]) && NoDuplicates(WithoutSupports(ins, gone)[n])
    ensures n.fact ==> WithoutSupports(ins, gone)[n] == []
  {
    hide NoDuplicates, Backed, WithoutCalls, WithoutSupports;
    NoneListedTwice();
    LeftAt(g, gone, n);
    LeftBelow(ins, gone, n);
  }

  lemma LeftBacked(g: Graph, ins: Graph, d: set<CallNode>)
    requires Sound(g, ins) && Abolish.ClosedAbove(g, d)
    ensures Backed(WithoutCalls(g, Abolish.Gone(d)), WithoutSupports(ins, Abolish.Gone(d)))
  {
    hide Sound, Abolish.ClosedAbove, WithoutSupports, Abolish.Gone, Abolish.Filter;
    var g2, ins2 := WithoutCalls(g, Abolish.Gone(d)), WithoutSupports(ins, Abolish.Gone(d));
    forall n, m | n in g2 && m in g2[n]
      ensures m in ins2 && n in ins2[m]
    {
      LeftForward(g, ins, d, n, m);
    }
  }

  lemma LeftBackedToo(g: Graph, ins: Graph, d: set<CallNode>)
    requires Sound(g, ins) && Abolish.ClosedAbove(g, d)
    ensures Backed(WithoutSupports(ins, Abolish.Gone(d)), WithoutCalls(g, Abolish.Gone(d)))
  {
    hide Sound, Abolish.ClosedAbove, WithoutCalls, Abolish.Gone, Abolish.Filter;
    var g2, ins2 := WithoutCalls(g, Abolish.Gone(d)), WithoutSupports(ins, Abolish.Gone(d));
    forall n, m | n in ins2 && m in ins2[n]
      ensures m in g2 && n in g2[m]
    {
      LeftBackward(g, ins, d, n, m);
    }
  }

  /** What is left of the graph. */
  lemma RemovedShape(g: Graph, ins: Graph, d: set<CallNode>)
    requires Sound(g, ins) && Abolish.ClosedAbove(g, d)
    ensures Sound(WithoutCalls(g, Abolish.Gone(d)), WithoutSupports(ins, Abolish.Gone(d)))
  {
    hide *;
    var gone := Abolish.Gone(d);
    var g2, ins2 := WithoutCalls(g, gone), WithoutSupports(ins, gone);
    Abolish.SoundMirrored(g, ins);
    MirroredKeys(g, ins);
    RemovedKeys(g, ins, gone);
    LeftBacked(g, ins, d);
    LeftBackedToo(g, ins, d);
    forall n | n in g2
      ensures NoDuplicates(g2[n]) && NoDuplicates(ins2[n]) && (n.fact ==> ins2[n] == [])
    {
      LeftLists(g, ins, gone, n);
    }
    MakeSound(g2, ins2);
  }

  lemma MakeSound(g: Graph, ins: Graph)
    requires g.Keys == ins.Keys && Backed(g, ins) && Backed(ins, g)
    requires forall n :: n in g ==> NoDuplicates(g[n]) && NoDuplicates(ins[n]) && (n.fact ==> ins[n] == [])
    ensures Sound(g, ins)
  {
    hide NoDuplicates, Backed;
  }

  lemma NoneListedTwice()
    ensures NoDuplicates([])
  {
  }

  lemma AbolishedClosed(g: Graph, ins: Graph, p: CallNode)
    requires Mirrored(g, ins)
    ensures Abolish.ClosedAbove(g, Abolish.Abolished(g, p)) && Abolish.Abolished(g, p) <= g.Keys
  {
    var d := Abolish.Abolished(g, p);
    forall n, y | n in d && n in g && y in g[n]
      ensures y in d
    {
      hide NoDuplicates, Backed;
      BothWays(g, ins, n, y);
      ReachSelf(g, y);
      ReachStep(g, n, y, y);
      forall z | z in g && Reach(g, y, z)
        ensures z in Supporters(g, p)
      {
        ReachStep(g, n, y, z);
      }
    }
  }

  lemma RemoveKeeps(s: State, p: CallNode, s2: State)
    requires Inv(s) && RemoveStep(s, p, s2)
    ensures Inv(s2)
  {
    Quiet(s);
    RemovedState(s, p, s2);
    QuietInv(s2);
  }

  /** What abolishing `p` leaves of the graph and of the marks is what the step says. */
  lemma AbolishedGraph(g: Graph, ins: Graph, now: Graph, nowIns: Graph, gone: set<CallNode>)
    requires Abolish.Freed(g, now, gone, gone) && Abolish.WithoutInedges(ins, nowIns, gone)
    ensures now == WithoutCalls(g, gone) && nowIns == WithoutSupports(ins, gone)
  {
  }

  // The step, with the rest of the state and the history as it demands.
  ghost function AfterRemove(s: State, p: CallNode): (s2: State)
    requires s.busy == {} && s.deleted == {} && p in s.g && Abolish.Few(s.g)
    ensures RemoveStep(s, p, s2)
    ensures var gone := Abolish.Gone(Abolish.Abolished(s.g, p));
            s2.g == WithoutCalls(s.g, gone) && s2.ins == WithoutSupports(s.ins, gone) &&
            s2.deleted == Abolish.Abolished(s.g, p) - gone
  {
    var d := Abolish.Abolished(s.g, p);
    var gone := Abolish.Gone(d);
    s.(g := WithoutCalls(s.g, gone), ins := WithoutSupports(s.ins, gone), deleted := d - gone,
       counts := ZeroFor(s.counts, gone), direct := ZeroFor(s.direct, gone), w := WithoutWeights(s.w, gone),
       behind := set q | q in s.behind && q.0 !in gone)
  }

  lemma KeysAre(nodes: set<CallNode>, g: Graph)
    requires Dependents(nodes) == g
    ensures g.Keys == nodes
  {
  }

  /** Abolishing a call of the graph in memory is a step of the run: its edges and marks change as the step says. */
  method AbolishInRun(table: Abolish.CallTable, p: CallNode, ghost nodes: set<CallNode>, ghost s: State,
                      ghost k0: Counters)
    returns (ok: bool, ghost s2: State)
    requires Sound(s.g, s.ins) && Dependents(nodes) == s.g && Supports(nodes) == s.ins && p in nodes
    requires s.busy == {} && s.deleted == {} && Marked(nodes) == {} && Abolish.Few(s.g)
    requires Abolish.Tallied(nodes, k0) && Abolish.Exact(s.g, k0, {}) && table.assumptions == []
    modifies table, nodes`deleted, nodes`outcount, nodes`outedges, nodes`inedges
    ensures ok && RemoveStep(s, p, s2)
    ensures s2.g == Dependents(nodes) && s2.ins == Supports(nodes)
    ensures s2.deleted == Marked(nodes) - Abolish.Gone(Abolish.Abolished(s.g, p))
  {
    hide *;
    KeysAre(nodes, s.g);
    ghost var checked;
    ok, checked := table.AbolishIncrCall(p, nodes, s.g, s.ins, k0);
    AbolishedGraph(s.g, s.ins, Dependents(nodes), Supports(nodes), Abolish.Gone(Abolish.Abolished(s.g, p)));
    s2 := AfterRemove(s, p);
  }

  lemma RemovedState(s: State, p: CallNode, s2: State)
    requires Shape(s) && RemoveStep(s, p, s2) && s.behind == {} && s.due == {}
    requires forall x, y :: x in s.g && y in s.g ==> s.w(x, y) == 0
    requires forall n :: n in s.ins && !n.fact ==> n in s.counts && n in s.direct && s.counts[n] == 0 == s.direct[n]
    ensures Shape(s2) && s2.busy == {} && s2.behind == {} && s2.due == {}
    ensures forall x, y :: x in s2.g && y in s2.g ==> s2.w(x, y) == 0
    ensures forall n :: n in s2.ins && !n.fact ==> n in s2.counts && n in s2.direct && s2.counts[n] == 0 == s2.direct[n]
    ensures forall x :: x in s2.deleted ==> x.fact && x in s2.g && s2.g[x] == []
  {
    var d := Abolish.Abolished(s.g, p);
    assert Sound(s.g, s.ins);
    AbolishedClosed(s.g, s.ins, p);
    RemovedShape(s.g, s.ins, d);
    RemovedFacts(s, p, s2);
    RemovedKeys(s.g, s.ins, Abolish.Gone(d));
    ShapeKeys(s);
    hide Sound, Abolish.Abolished, Abolish.ClosedAbove, Abolish.Gone, WithoutCalls, WithoutSupports;
  }

  /** A state in which nothing is outstanding and only facts without dependents are marked. */
  lemma QuietInv(s: State)
    requires Shape(s) && s.busy == {} && s.behind == {} && s.due == {}
    requires forall x, y :: x in s.g && y in s.g ==> s.w(x, y) == 0
    requires forall n :: n in s.ins && !n.fact ==> n in s.counts && n in s.direct && s.counts[n] == 0 == s.direct[n]
    requires forall x :: x in s.deleted ==> x.fact && x in s.g && s.g[x] == []
    ensures Inv(s)
  {
    hide Sound, SumIn;
    ShapeKeys(s);
    forall n | n in s.ins
      ensures SumIn(s.ins[n], n, s.w) == 0
      ensures forall x :: x in s.ins[n] ==> s.w(x, n) == 0
    {
      RemovedWeights(s, n);
    }
  }

  lemma RemovedKeys(g: Graph, ins: Graph, gone: set<CallNode>)
    ensures WithoutCalls(g, gone).Keys == g.Keys && WithoutSupports(ins, gone).Keys == ins.Keys
  {
  }

  lemma RemovedWeights(s: State, n: CallNode)
    requires Sound(s.g, s.ins) && n in s.ins && forall x, y :: x in s.g && y in s.g ==> s.w(x, y) == 0
    ensures SumIn(s.ins[n], n, s.w) == 0
    ensures forall x :: x in s.ins[n] ==> s.w(x, n) == 0
  {
    forall x | x in s.ins[n]
      ensures s.w(x, n) == 0
    {
      BothWays(s.g, s.ins, x, n);
    }
    SumZero(s.ins[n], n, s.w);
  }

  /** The facts that stay marked have no dependents left. */
  lemma RemovedFacts(s: State, p: CallNode, s2: State)
    requires Sound(s.g, s.ins) && RemoveStep(s, p, s2)
    ensures forall x :: x in s2.deleted ==> x.fact && x in s.g && s2.g[x] == []
  {
    var d := Abolish.Abolished(s.g, p);
    AbolishedClosed(s.g, s.ins, p);
    forall x | x in s2.deleted
      ensures x.fact && x in s.g && s2.g[x] == []
    {
      forall y | y in s.g[x]
        ensures y in Abolish.Gone(d)
      {
        BothWays(s.g, s.ins, x, y);
      }
      Abolish.FilterFacts(s.g[x], Abolish.Gone(d));
      CountBound(s.g[x], Abolish.Gone(d));
    }
  }

  // ---------------------------------------------------------------- whole runs

  lemma StepKeeps(s: State, e: Event, s2: State)
    requires Inv(s) && Step(s, e, s2) && CleanEvent(s, e) && Small(FalseWidth - 1, s2)
    ensures Inv(s2)
  {
    hide Inv, Small, InvalidateStep, FetchStep, StartStep, FinishStep, CreateStep, RemoveStep, NoMarkedFact;
    match e
    case Invalidate(c) => InvalidateKeeps(s, c, s2);
    case Fetch => FetchKeeps(s, s2);
    case Start(c) => StartKeeps(s, c, s2);
    case Finish(c, changed, supports) => FinishKeeps(s, c, changed, supports, s2);
    case Create(c, supports) => CreateKeeps(s, c, supports, s2);
    case Remove(p) => RemoveKeeps(s, p, s2);
  }

  lemma {:induction false} RunKeeps(s: State, log: seq<(Event, State)>)
    requires Inv(s) && Run(s, log) && Clean(s, log) && Within(FalseWidth - 1, log)
    ensures Inv(End(s, log))
    decreases |log|
  {
    hide Inv, Small, Step, CleanEvent;
    if log != [] {
      StepKeeps(s, log[0].0, log[0].1);
      RunKeeps(log[0].1, log[1..]);
    }
  }

  /** If no call is evaluated with the help of a fact still marked, and no more invalidations are outstanding for a
      call than 14 bits can count, then after any run the counters are exact and no stale table can be used. */
  lemma RunsStayCurrent(s: State, log: seq<(Event, State)>)
    requires Fresh(s) && Run(s, log) && Clean(s, log) && Within(FalseWidth - 1, log)
    ensures Current(End(s, log)) && ExactCounts(End(s, log)) && FlagsRight(End(s, log))
  {
    FreshInv(s);
    RunKeeps(s, log);
    InvIsCurrent(End(s, log));
  }

  // ---------------------------------------------------------------- a series of invalidations

  ghost predicate OnlyInvalidations(log: seq<(Event, State)>) {
    forall i :: 0 <= i < |log| ==> log[i].0.Invalidate?
  }

  /** The affected list after invalidations only. */
  ghost predicate Affects(g: Graph, m: set<CallNode>, list: seq<CallNode>) {
    && m <= g.Keys && NoDuplicates(list) && Elements(list) == m && ClosedUp(g, list, m)
    && (NoCycles(g, m) ==> Scheduled(g, list))
  }

  lemma SpreadAffects(g: Graph, m0: set<CallNode>, m: set<CallNode>, list0: seq<CallNode>, list: seq<CallNode>)
    requires Affects(g, m0, list0) && m0 <= m <= g.Keys && ClosedBelow(g, m - m0, m)
    requires Listed(list, list0, m - m0) && Tidy(g, m0, m, list0, list)
    ensures Affects(g, m, list)
  {
    hide ClosedUp, Scheduled, NoDuplicates, Cyclic, ClosedBelow;
    var front := list[..|list| - |list0|];
    assert list == front + list0;
    FrontDistinct(front, list0);
    assert m == m - m0 + m0;
    ClosedUpLater(g, m0, m, m - m0, list0, list);
  }

  lemma InvalidationAffects(s: State, c: CallNode, s2: State)
    requires Mirrored(s.g, s.ins) && Affects(s.g, s.deleted, s.affected) && InvalidateStep(s, c, s2)
    ensures Affects(s2.g, s2.deleted, s2.affected) && s2.g == s.g && s2.ins == s.ins
  {
    MirroredKeys(s.g, s.ins);
    if c !in s.deleted {
      hide Mirrored, Listed, Tidy, Affects, Shifted, Leading, ClosedBelow;
      SpreadAffects(s.g, s.deleted, s2.deleted, s.affected, s2.affected);
    }
  }

  lemma FrontDistinct(front: seq<CallNode>, rest: seq<CallNode>)
    requires NoDuplicates(front) && NoDuplicates(rest) && Elements(front) !! Elements(rest)
    ensures NoDuplicates(front + rest) && Elements(front + rest) == Elements(front) + Elements(rest)
  {
    forall i, j | 0 <= i < j < |front + rest|
      ensures (front + rest)[i] != (front + rest)[j]
    {
      if i < |front| <= j {
        assert (front + rest)[i] in Elements(front) && (front + rest)[j] in Elements(rest);
      }
    }
  }

  lemma {:induction false} SeriesAffects(s: State, log: seq<(Event, State)>)
    requires Mirrored(s.g, s.ins) && Affects(s.g, s.deleted, s.affected) && Run(s, log) && OnlyInvalidations(log)
    ensures var e := End(s, log); Affects(e.g, e.deleted, e.affected)
    decreases |log|
  {
    hide Affects, InvalidateStep, Mirrored, FetchStep, StartStep, FinishStep, CreateStep, RemoveStep;
    if log != [] {
      assert log[0].0.Invalidate?;
      InvalidationAffects(s, log[0].0.c, log[0].1);
      SameMirrored(s, log[0].1);
      SeriesAffects(log[0].1, log[1..]);
    }
  }

  lemma SameMirrored(s: State, s2: State)
    requires Mirrored(s.g, s.ins) && s2.g == s.g && s2.ins == s.ins
    ensures Mirrored(s2.g, s2.ins)
  {
    hide Mirrored;
  }

  /** After any series of invalidations the affected list holds each invalid call once; it puts every call before
      those that depend on it exactly when no invalid call is on a cycle. */
  lemma AffectedIsSchedule(s: State, log: seq<(Event, State)>)
    requires Fresh(s) && Run(s, log) && OnlyInvalidations(log)
    ensures var e := End(s, log);
            NoDuplicates(e.affected) && Elements(e.affected) == e.deleted &&
            (Scheduled(e.g, e.affected) <==> NoCycles(e.g, e.deleted))
  {
    SeriesAffects(s, log);
    var e := End(s, log);
    if Scheduled(e.g, e.affected) {
      forall n | n in e.deleted
        ensures !Cyclic(e.g, n)
      {
        assert n in Elements(e.affected);
        var k :| 0 <= k < |e.affected| && e.affected[k] == n;
        hide Cyclic, Mirrored, NoDuplicates, ClosedUp, Scheduled;
        assert forall x :: x in e.affected ==> x in Elements(e.affected);
        ScheduleHasNoCycle(e.g, e.affected, k);
      }
    }
  }
}