/** When a stale table is used.  Both conditions under which InvalidationRuns shows that none is are exact: a table
    stays current as long as it has not been computed with the help of a fact that is still marked, and 14 bits are
    needed for as many invalidations as are outstanding. */
module StaleTables {
  import opened CallGraph
  import opened Walks
  import opened Invalidation
  import opened InvalidationRuns
  import Abolish

  // ---------------------------------------------------------------- facts that are still marked

  /** The call `c` has been evaluated with the help of the marked fact `f`; its table can be used. */
  ghost predicate Hidden(s: State, f: CallNode, c: CallNode) {
    && Mirrored(s.g, s.ins) && s.g.Keys == s.counts.Keys == s.direct.Keys && s.busy <= s.g.Keys
    && (forall b :: b in s.busy ==> !b.fact && b in s.direct && s.direct[b] == 0)
    && f.fact && f in s.deleted && f in s.g && c in s.g[f] && c != f && c in s.counts && s.counts[c] == 0 &&
       c !in s.busy
    && Small(FalseWidth - 1, s)
  }

  /** When the fact changes, the marked fact is passed over. */
  lemma PassedOver(s: State, f: CallNode, c: CallNode) returns (s2: State)
    requires Hidden(s, f, c) && s.busy == {}
    ensures InvalidateStep(s, f, s2) && Small(FalseWidth - 1, s2) && !Current(s2)
  {
    s2 := s.(counts := Cut(s.counts, FalseWidth), w := ChargedBy(s.g, s.w, {}), behind := s.behind + PairsTo(s.g, f));
    assert s2.deleted - s.deleted == {};
    assert Small(FalseWidth - 1, s2) by {
      hide Mirrored;
      forall n | n in s2.ins && n in s2.direct && !n.fact
        ensures s2.direct[n] + SumIn(s2.ins[n], n, s2.w) <= FalseWidth - 1
      {
        SumSame(s.ins[n], n, s.w, s2.w);
      }
    }
    hide Mirrored, Small;
    assert (c, f) in s2.behind && Used(s2, c);
  }

  /** The call `b` gives up all its supporters. */
  ghost function Cleared(s: State, b: CallNode): State {
    s.(g := map n | n in s.g :: Abolish.Filter(s.g[n], {b}), ins := s.ins[b := []], busy := s.busy - {b},
       deleted := s.deleted - {b}, due := (set p | p in s.due && p.1 != b),
       behind := s.behind + (set p | p in s.due && p.1 == b))
  }

  lemma ClearedAt(s: State, b: CallNode, n: CallNode)
    requires n in s.g
    ensures n in Cleared(s, b).g
    ensures forall m :: m in Cleared(s, b).g[n] <==> m in s.g[n] && m != b
    ensures NoDuplicates(s.g[n]) ==> NoDuplicates(Cleared(s, b).g[n])
  {
    hide Abolish.Filter, NoDuplicates;
    Abolish.FilterFacts(s.g[n], {b});
  }

  lemma ClearedKeys(s: State, b: CallNode)
    ensures Cleared(s, b).g.Keys == s.g.Keys && Cleared(s, b).ins == s.ins[b := []]
    ensures Cleared(s, b).busy == s.busy - {b} && Cleared(s, b).deleted == s.deleted - {b}
    ensures Cleared(s, b).counts == s.counts && Cleared(s, b).direct == s.direct && Cleared(s, b).w == s.w
    ensures Cleared(s, b).affected == s.affected && Cleared(s, b).due == (set p | p in s.due && p.1 != b)
    ensures Cleared(s, b).behind == s.behind + (set p | p in s.due && p.1 == b)
  {
  }

  lemma ClearedForward(s: State, b: CallNode, n: CallNode, m: CallNode)
    requires Mirrored(s.g, s.ins) && n in s.g && m in Cleared(s, b).g[n]
    ensures m in Cleared(s, b).ins && n in Cleared(s, b).ins[m]
  {
    hide Cleared, Mirrored;
    ClearedKeys(s, b);
    ClearedAt(s, b, n);
    BothWays(s.g, s.ins, n, m);
  }

  lemma ClearedBackward(s: State, b: CallNode, n: CallNode, m: CallNode)
    requires Mirrored(s.g, s.ins) && n in s.ins && m in Cleared(s, b).ins[n]
    ensures m in Cleared(s, b).g && n in Cleared(s, b).g[m]
  {
    hide Cleared, Mirrored;
    ClearedKeys(s, b);
    BothWays(s.g, s.ins, m, n);
    ClearedAt(s, b, m);
  }

  lemma ClearedBacked(s: State, b: CallNode)
    requires Mirrored(s.g, s.ins) && b in s.ins
    ensures Backed(Cleared(s, b).g, Cleared(s, b).ins) && Backed(Cleared(s, b).ins, Cleared(s, b).g)
  {
    hide Cleared, Mirrored;
    ClearedKeys(s, b);
    var s2 := Cleared(s, b);
    forall n, m | n in s2.g && m in s2.g[n]
      ensures m in s2.ins && n in s2.ins[m]
    {
      ClearedForward(s, b, n, m);
    }
    forall n, m | n in s2.ins && m in s2.ins[n]
      ensures m in s2.g && n in s2.g[m]
    {
      ClearedBackward(s, b, n, m);
    }
  }

  lemma ListsOf(g: Graph, ins: Graph, n: CallNode)
    requires Mirrored(g, ins) && n in g
    ensures n in ins && NoDuplicates(g[n]) && NoDuplicates(ins[n])
  {
    hide NoDuplicates, Backed;
  }

  lemma ClearedMirrored(s: State, b: CallNode)
    requires Mirrored(s.g, s.ins) && b in s.ins
    ensures Mirrored(Cleared(s, b).g, Cleared(s, b).ins)
  {
    hide Cleared, NoDuplicates, Backed;
    ClearedBacked(s, b);
    ClearedKeys(s, b);
    var s2 := Cleared(s, b);
    forall n | n in s2.g
      ensures NoDuplicates(s2.g[n]) && NoDuplicates(s2.ins[n])
    {
      ListsOf(s.g, s.ins, n);
      ClearedAt(s, b, n);
      EmptyList();
    }
  }

  lemma EmptyList()
    ensures NoDuplicates([])
  {
  }

  lemma ClearedEdge(s: State, b: CallNode, n: CallNode, m: CallNode)
    requires n in s.g
    ensures n in Cleared(s, b).g && (m in Cleared(s, b).g[n] <==> m in s.g[n] && m != b)
  {
    hide Cleared;
    ClearedAt(s, b, n);
  }

  lemma ClearedRewired(s: State, b: CallNode)
    requires Mirrored(s.g, s.ins) && b in s.ins
    ensures Rewired(s, b, [], Cleared(s, b))
  {
    hide Cleared, Mirrored;
    ClearedKeys(s, b);
    ClearedMirrored(s, b);
    var s2 := Cleared(s, b);
    forall x, y | x in s.g && y in s.g[x] && y != b
      ensures y in s2.g[x]
    {
      ClearedEdge(s, b, x, y);
    }
    forall x, y | x in s.g && y in s2.g[x] && y != b
      ensures y in s.g[x]
    {
      ClearedEdge(s, b, x, y);
    }
  }

  /** Every call that is still being re-evaluated can finish. */
  lemma ClearedFinishes(s: State, f: CallNode, c: CallNode, b: CallNode)
    requires Hidden(s, f, c) && b in s.busy
    ensures FinishStep(s, b, true, [], Cleared(s, b)) && Hidden(Cleared(s, b), f, c)
  {
    hide Cleared, Mirrored, Small, Rewired;
    MirroredKeys(s.g, s.ins);
    ClearedKeys(s, b);
    ClearedMirrored(s, b);
    ClearedRewired(s, b);
    ClearedAt(s, b, f);
    ClearedSmall(s, b);
  }

  lemma ClearedSmall(s: State, b: CallNode)
    requires Small(FalseWidth - 1, s) && b in s.direct && s.direct[b] == 0
    ensures Small(FalseWidth - 1, Cleared(s, b))
  {
    hide Cleared;
    ClearedKeys(s, b);
    var s2 := Cleared(s, b);
    forall n | n in s2.ins && n in s2.direct && !n.fact
      ensures s2.direct[n] + SumIn(s2.ins[n], n, s2.w) <= FalseWidth - 1
    {
      if n != b { SmallAt(FalseWidth - 1, s, n); }
    }
  }

  /** A table computed with the help of a marked fact can become stale unnoticed. */
  lemma {:induction false} HiddenGoesStale(s: State, f: CallNode, c: CallNode) returns (log: seq<(Event, State)>)
    requires Hidden(s, f, c)
    ensures Run(s, log) && Clean(s, log) && Within(FalseWidth - 1, log) && !Current(End(s, log))
    decreases |s.busy|
  {
    hide *;
    if s.busy == {} {
      var s2 := PassedOver(s, f, c);
      log := OnlyOne(s, Invalidate(f), s2);
    } else {
      var b :| b in s.busy;
      var s2 := Cleared(s, b);
      ClearedFinishes(s, f, c, b);
      ClearedKeys(s, b);
      HiddenSmall(s2, f, c);
      var rest := HiddenGoesStale(s2, f, c);
      FinishIsClean(s, b, s2);
      log := OneFirst(FalseWidth - 1, s, Finish(b, true, []), s2, rest);
    }
  }

  lemma FinishIsClean(s: State, b: CallNode, s2: State)
    requires FinishStep(s, b, true, [], s2)
    ensures Step(s, Finish(b, true, []), s2) && CleanEvent(s, Finish(b, true, []))
  {
    hide FinishStep;
  }

  lemma OnlyOne(s: State, e: Event, s2: State) returns (log: seq<(Event, State)>)
    requires e.Invalidate? && InvalidateStep(s, e.c, s2) && Small(FalseWidth - 1, s2)
    ensures Run(s, log) && Clean(s, log) && Within(FalseWidth - 1, log) && End(s, log) == s2 && log == [(e, s2)]
  {
    hide InvalidateStep, Small;
    log := OneFirst(FalseWidth - 1, s, e, s2, []);
    assert log == [(e, s2)];
  }

  lemma HiddenSmall(s: State, f: CallNode, c: CallNode)
    requires Hidden(s, f, c)
    ensures Small(FalseWidth - 1, s)
  {
  }

  lemma OneFirst(bound: int, s: State, e: Event, s2: State, rest: seq<(Event, State)>)
    returns (log: seq<(Event, State)>)
    requires Step(s, e, s2) && CleanEvent(s, e) && Small(bound, s2)
    requires Run(s2, rest) && Clean(s2, rest) && Within(bound, rest)
    ensures Run(s, log) && Clean(s, log) && Within(bound, log) && End(s, log) == End(s2, rest) &&
            log == [(e, s2)] + rest
  {
    hide Step, CleanEvent, Small;
    log := [(e, s2)] + rest;
    assert log[1..] == rest;
    assert forall i :: 0 < i < |log| ==> log[i] == rest[i - 1];
    assert Small(bound, log[0].1);
  }

  // ---------------------------------------------------------------- the exact condition

  lemma {:induction false} SumLess(s: seq<CallNode>, n: CallNode, w: Weights, w2: Weights)
    requires forall x :: x in s ==> w2(x, n) <= w(x, n)
    ensures SumIn(s, n, w2) <= SumIn(s, n, w)
  {
    if s != [] {
      assert forall x :: x in s[1..] ==> x in s;
      SumLess(s[1..], n, w, w2);
    }
  }

  /** Finishing adds no outstanding invalidations. */
  lemma FinishedSmall(s: State, c: CallNode, changed: bool, supports: seq<CallNode>, s2: State)
    requires Inv(s) && FinishStep(s, c, changed, supports, s2)
    ensures Small(FalseWidth - 1, s2)
  {
    hide Inv, FinishStep, Rewired, SumIn, Idle, Small;
    FinishedBusy(s, c, changed, supports, s2);
    BusyIdle(s, c);
    FinishedFrame(s, c, changed, supports, s2);
    RewiredSmall(s, c, supports, s2);
  }

  lemma FinishedFrame(s: State, c: CallNode, changed: bool, supports: seq<CallNode>, s2: State)
    requires FinishStep(s, c, changed, supports, s2)
    ensures s2.ins == s.ins[c := supports] && c in s.ins && s2.direct == s.direct && s2.busy == s.busy - {c}
    ensures forall x, n :: s2.w(x, n) <= s.w(x, n)
    ensures Rewired(s, c, supports, s2)
  {
    hide Reported, Mirrored;
  }

  lemma BusyDirect(s: State)
    requires Inv(s)
    ensures forall b :: b in s.busy ==> !b.fact && b in s.direct && s.direct[b] == 0
    ensures s.busy <= s.g.Keys && s.counts.Keys == s.direct.Keys == s.g.Keys
  {
    hide Inv, Idle;
    InvKeys(s);
    InvBusy(s);
    forall b | b in s.busy
      ensures !b.fact && b in s.direct && s.direct[b] == 0
    {
      BusyIdle(s, b);
      IdleAt(s, b);
    }
  }

  lemma InvBusy(s: State)
    requires Inv(s)
    ensures s.busy <= s.g.Keys
  {
  }

  lemma IdleAt(s: State, c: CallNode)
    requires Idle(s, c)
    ensures !c.fact && c in s.direct && s.direct[c] == 0 && c in s.counts && s.counts[c] == 0 && c in s.g
  {
  }

  lemma RewiredMirrored(s: State, c: CallNode, supports: seq<CallNode>, s2: State)
    requires Rewired(s, c, supports, s2)
    ensures Mirrored(s2.g, s2.ins) && s2.g.Keys == s.g.Keys
  {
    hide Mirrored;
  }

  /** The finished call has a counter of zero, and facts it has used are still marked. */
  lemma FinishedHidden(s: State, c: CallNode, changed: bool, supports: seq<CallNode>, s2: State, f: CallNode)
    requires Inv(s) && FinishStep(s, c, changed, supports, s2) && f in supports && f.fact && f in s.deleted
    ensures Hidden(s2, f, c)
  {
    hide Inv, FinishStep, Mirrored, Small, Rewired, Idle;
    FinishedFrame(s, c, changed, supports, s2);
    FinishedBusy(s, c, changed, supports, s2);
    FinishedSmall(s, c, changed, supports, s2);
    BusyDirect(s);
    EdgesTo(s, c, supports, s2);
    SupportsIn(s, c, supports, s2);
    RewiredMirrored(s, c, supports, s2);
    FinishedMarks(s, c, changed, supports, s2, f);
  }

  lemma FinishedBusy(s: State, c: CallNode, changed: bool, supports: seq<CallNode>, s2: State)
    requires FinishStep(s, c, changed, supports, s2)
    ensures c in s.busy
  {
  }

  lemma FactAlone(s: State, f: CallNode)
    requires Inv(s) && f.fact && f in s.deleted
    ensures f in s.ins && s.ins[f] == [] && f in s.counts && f !in s.busy
  {
    hide NoDuplicates, Backed;
  }

  lemma UnchangedMarks(s: State, c: CallNode, k: Counters, ins: Graph, d: set<CallNode>, f: CallNode)
    requires Reported(ins, c, s.counts, k, d) && f in ins && ins[f] == [] && c in ins && s.counts[c] == 0
    ensures f !in d && k.Keys == s.counts.Keys && k[c] == 0
  {
    hide Least;
    assert Count([], d + {c}) == 0;
    assert Drop(0, Count(ins[c], d + {c})) == 0;
    FactsUncounted(f, k, s.counts);
  }

  lemma FinishedMarks(s: State, c: CallNode, changed: bool, supports: seq<CallNode>, s2: State, f: CallNode)
    requires Inv(s) && FinishStep(s, c, changed, supports, s2) && f.fact && f in s.deleted
    ensures f in s2.deleted && s2.counts.Keys == s.counts.Keys && c in s2.counts && s2.counts[c] == 0
  {
    hide Inv, Reported, Rewired, Idle;
    FinishedFrame(s, c, changed, supports, s2);
    BusyIdle(s, c);
    IdleAt(s, c);
    FactAlone(s, f);
    if !changed { UnchangedMarks(s, c, s2.counts, s2.ins, Zeros(s2.counts) - Zeros(s.counts), f); }
  }

  lemma FactsUncounted(f: CallNode, k: Counters, k0: Counters)
    requires f in k && f in k0 && k[f] == Drop(k0[f], 0)
    ensures f !in Zeros(k) - Zeros(k0)
  {
  }

  /** A call that has been evaluated again stays current, whatever happens next under the two conditions, if and
      only if none of the facts it has used is still marked. */
  lemma FinishedIff(s: State, c: CallNode, changed: bool, supports: seq<CallNode>, s2: State)
    requires Inv(s) && FinishStep(s, c, changed, supports, s2)
    ensures (forall log :: Run(s2, log) && Clean(s2, log) && Within(FalseWidth - 1, log) ==> Current(End(s2, log))) <==>
            NoMarkedFact(s, supports)
  {
    if NoMarkedFact(s, supports) {
      FinishKeeps(s, c, changed, supports, s2);
      CleanRunsCurrent(s2);
    } else {
      var f :| f in supports && f.fact && f in s.deleted;
      FinishedHidden(s, c, changed, supports, s2, f);
      hide Inv, FinishStep, Hidden, Current;
      var log := HiddenGoesStale(s2, f, c);
    }
  }

  lemma CleanRunsCurrent(s: State)
    requires Inv(s)
    ensures forall log :: Run(s, log) && Clean(s, log) && Within(FalseWidth - 1, log) ==> Current(End(s, log))
  {
    hide Inv, Run, Clean, Within, Current;
    forall log | Run(s, log) && Clean(s, log) && Within(FalseWidth - 1, log)
      ensures Current(End(s, log))
    {
      RunKeeps(s, log);
      InvIsCurrent(End(s, log));
    }
  }

  /** The same for a call that is evaluated for the first time. */
  lemma CreatedIff(s: State, c: CallNode, supports: seq<CallNode>, s2: State)
    requires Inv(s) && CreateStep(s, c, supports, s2)
    ensures (forall log :: Run(s2, log) && Clean(s2, log) && Within(FalseWidth - 1, log) ==> Current(End(s2, log))) <==>
            NoMarkedFact(s, supports)
  {
    if NoMarkedFact(s, supports) {
      CreateKeeps(s, c, supports, s2);
      CleanRunsCurrent(s2);
    } else {
      var f :| f in supports && f.fact && f in s.deleted;
      CreatedHidden(s, c, supports, s2, f);
      hide Inv, CreateStep, Hidden, Current;
      var log := HiddenGoesStale(s2, f, c);
    }
  }

  lemma CreatedFrame(s: State, c: CallNode, supports: seq<CallNode>, s2: State)
    requires CreateStep(s, c, supports, s2)
    ensures Rewired(s, c, supports, s2) && s2 == s.(g := s2.g, ins := s2.ins) && c !in s.busy && !c.fact
  {
    hide Rewired;
  }

  lemma CreatedSmall(s: State, c: CallNode, supports: seq<CallNode>, s2: State)
    requires Inv(s) && CreateStep(s, c, supports, s2)
    ensures Small(FalseWidth - 1, s2)
  {
    hide Inv, CreateStep, Rewired, SumIn, Shape, ExactCounts, Idle;
    CreatedIdle(s, c, supports, s2);
    CreatedFrame(s, c, supports, s2);
    RewiredSmall(s, c, supports, s2);
  }

  lemma CreatedIdle(s: State, c: CallNode, supports: seq<CallNode>, s2: State)
    requires Inv(s) && CreateStep(s, c, supports, s2)
    ensures Idle(s, c)
  {
    ApartIdle(s, c);
  }

  lemma IdleWeights(s: State, c: CallNode)
    requires Idle(s, c)
    ensures forall x :: x in s.g ==> s.w(x, c) == 0
  {
  }

  lemma InvCounts(s: State)
    requires Inv(s)
    ensures Shape(s) && ExactCounts(s)
  {
  }

  /** With new supporters for an idle call, and no more outstanding than before, the bound still holds. */
  lemma RewiredSmall(s: State, c: CallNode, supports: seq<CallNode>, s2: State)
    requires Inv(s) && Idle(s, c) && Rewired(s, c, supports, s2)
    requires s2.direct == s.direct && forall x, n :: s2.w(x, n) <= s.w(x, n)
    ensures Small(FalseWidth - 1, s2)
  {
    hide Inv, Rewired, SumIn, Shape, ExactCounts, Idle;
    InvCounts(s);
    InvKeys(s);
    EdgesTo(s, c, supports, s2);
    SupportsIn(s, c, supports, s2);
    IdleWeights(s, c);
    IdleAt(s, c);
    forall n | n in s2.ins && n in s2.direct && !n.fact
      ensures s2.direct[n] + SumIn(s2.ins[n], n, s2.w) <= FalseWidth - 1
    {
      if n == c {
        SumZero(supports, c, s.w);
        SumLess(supports, c, s.w, s2.w);
      } else {
        CountsAt(s, n);
        SumLess(s.ins[n], n, s.w, s2.w);
      }
    }
  }

  lemma CreatedHidden(s: State, c: CallNode, supports: seq<CallNode>, s2: State, f: CallNode)
    requires Inv(s) && CreateStep(s, c, supports, s2) && f in supports && f.fact && f in s.deleted
    ensures Hidden(s2, f, c)
  {
    hide Inv, CreateStep, Mirrored, Small, Rewired, Idle;
    CreatedFrame(s, c, supports, s2);
    CreatedIdle(s, c, supports, s2);
    IdleAt(s, c);
    CreatedSmall(s, c, supports, s2);
    BusyDirect(s);
    EdgesTo(s, c, supports, s2);
    SupportsIn(s, c, supports, s2);
    RewiredMirrored(s, c, supports, s2);
  }

  // ---------------------------------------------------------------- fetching the affected list

  /** Whenever a call is evaluated, the affected list has been fetched, so that no fact is marked. */
  ghost predicate Fetched(s: State, log: seq<(Event, State)>)
    decreases |log|
  {
    log == [] ||
    ((log[0].0.Start? || log[0].0.Create? ==> forall f :: f in s.deleted ==> !f.fact) && Fetched(log[0].1, log[1..]))
  }

  ghost predicate MarksOnlyIdle(s: State) {
    (forall b :: b in s.busy ==> !b.fact) && (s.busy != {} ==> forall f :: f in s.deleted ==> !f.fact)
  }

  /** Then no call is evaluated with the help of a marked fact. */
  lemma {:induction false} FetchedIsClean(s: State, log: seq<(Event, State)>)
    requires MarksOnlyIdle(s) && Run(s, log) && Fetched(s, log)
    ensures Clean(s, log)
    decreases |log|
  {
    if log != [] {
      var e, s2 := log[0].0, log[0].1;
      assert MarksOnlyIdle(s2) && CleanEvent(s, e) by {
        hide InvalidatedCut, Rewired, Reported, ChargedBy, ClearedFor, DischargedBy, WithoutCalls, WithoutSupports;
        hide Abolish.Few, Abolish.Abolished, Abolish.Gone;
      }
      FetchedIsClean(s2, log[1..]);
    }
  }

  // ---------------------------------------------------------------- abolition

  /** The fact `f` is marked and not on the affected list. */
  ghost predicate Stuck(s: State, f: CallNode) {
    && f.fact && f in s.deleted && f !in s.affected && s.counts.Keys == s.ins.Keys
    && (forall b :: b in s.busy ==> !b.fact) && (forall n :: n in s.ins && n.fact ==> s.ins[n] == [])
  }

  lemma StuckInvalidate(s: State, c: CallNode, s2: State, f: CallNode)
    requires Stuck(s, f) && InvalidateStep(s, c, s2)
    ensures Stuck(s2, f)
  {
    hide Tidy, Shifted, ClosedBelow, Leading;
    if c !in s.deleted {
      var front := s2.affected[..|s2.affected| - |s.affected|];
      assert s2.affected == front + s.affected;
      assert f in s2.affected ==> f in Elements(front);
    }
  }

  lemma StuckFinish(s: State, c: CallNode, changed: bool, supports: seq<CallNode>, s2: State, f: CallNode)
    requires Stuck(s, f) && FinishStep(s, c, changed, supports, s2)
    ensures Stuck(s2, f)
  {
    hide Mirrored, Least;
    assert forall d: set<CallNode> :: Count([], d) == 0;
  }

  /** Nothing ever takes the mark away from it again. */
  lemma {:induction false} StuckForGood(s: State, log: seq<(Event, State)>, f: CallNode)
    requires Stuck(s, f) && Run(s, log)
    ensures Stuck(End(s, log), f)
    decreases |log|
  {
    if log != [] {
      var s2 := log[0].1;
      match log[0].0 {
        case Invalidate(c) => StuckInvalidate(s, c, s2, f);
        case Finish(c, changed, supports) => StuckFinish(s, c, changed, supports, s2, f);
        case _ => StuckOther(s, log[0].0, s2, f);
      }
      hide Stuck, Step;
      StuckForGood(s2, log[1..], f);
    }
  }

  lemma StuckOther(s: State, e: Event, s2: State, f: CallNode)
    requires Stuck(s, f) && Step(s, e, s2) && !e.Invalidate? && !e.Finish?
    ensures Stuck(s2, f)
  {
    hide Mirrored, ClearedFor;
  }

  lemma RemovedStuck(s: State, p: CallNode, s2: State, f: CallNode)
    requires Inv(s) && RemoveStep(s, p, s2) && f.fact && f in Abolish.Abolished(s.g, p) && f !in s.affected
    ensures Stuck(s2, f)
  {
    hide Inv, Abolish.Abolished, WithoutCalls, WithoutSupports;
    RemoveKeeps(s, p, s2);
    InvFacts(s2);
  }

  lemma InvFacts(s: State)
    requires Inv(s)
    ensures s.counts.Keys == s.ins.Keys && (forall b :: b in s.busy ==> !b.fact)
    ensures forall n :: n in s.ins && n.fact ==> s.ins[n] == []
  {
    hide NoDuplicates, Backed;
  }

  /** A fact that only an abolished call has used stays marked for good: however late another call uses it, the table
      of that call can become stale unnoticed. */
  lemma LostFact(s: State, p: CallNode, s2: State, log: seq<(Event, State)>, c: CallNode, supports: seq<CallNode>,
                 t: State, f: CallNode)
    returns (log2: seq<(Event, State)>)
    requires Inv(s) && RemoveStep(s, p, s2) && f.fact && f in Abolish.Abolished(s.g, p) && f !in s.affected
    requires Run(s2, log) && Clean(s2, log) && Within(FalseWidth - 1, log)
    requires CreateStep(End(s2, log), c, supports, t) && f in supports
    ensures Run(t, log2) && Clean(t, log2) && Within(FalseWidth - 1, log2) && !Current(End(t, log2))
  {
    hide Inv, RemoveStep, Run, Clean, Within, CreateStep, Current, Hidden;
    RemovedStuck(s, p, s2, f);
    RemoveKeeps(s, p, s2);
    RunKeeps(s2, log);
    StuckForGood(s2, log, f);
    CreatedHidden(End(s2, log), c, supports, t, f);
    log2 := HiddenGoesStale(t, f, c);
  }

  // ---------------------------------------------------------------- one fact and one call

  /** A fact `f` and a call `y` that depends on it. */
  ghost function FactAndCall(f: CallNode, y: CallNode): State
    requires f != y
  {
    State(map[f := [y], y := []], map[f := [], y := [f]], {}, map[f := 0, y := 0], [], {}, NoWeights(),
          map[f := 0, y := 0], {}, {})
  }

  lemma FactStarts(f: CallNode, y: CallNode)
    requires f.fact && !y.fact
    ensures Fresh(FactAndCall(f, y))
  {
    var s := FactAndCall(f, y);
    assert s.counts == map n | n in s.g :: 0;
  }

  ghost function Marks(f: CallNode, y: CallNode, i: nat): set<CallNode> {
    if i == 0 then {} else {y}
  }

  ghost function WeightsAfter(f: CallNode, y: CallNode, i: nat): Weights
    requires f != y
  {
    if i == 0 then NoWeights() else ChargedBy(FactAndCall(f, y).g, WeightsAfter(f, y, i - 1),
                                              {f, y} - Marks(f, y, i - 1))
  }

  /** After `i` changes of the fact, each followed by fetching the affected list, but without calling `y` again. */
  ghost function Untouched(f: CallNode, y: CallNode, i: nat): State
    requires f != y
  {
    FactAndCall(f, y).(deleted := Marks(f, y, i), counts := map[f := i % FalseWidth, y := i % FalseWidth],
                       w := WeightsAfter(f, y, i), direct := map[f := i, y := 0],
                       behind := if i == 0 then {} else {(y, f)})
  }

  /** The same before the list has been fetched. */
  ghost function Unfetched(f: CallNode, y: CallNode, i: nat): State
    requires f != y && i > 0
  {
    Untouched(f, y, i).(deleted := {f, y}, affected := if i == 1 then [f, y] else [f])
  }

  lemma {:induction false} WeightIs(f: CallNode, y: CallNode, i: nat)
    requires f != y
    ensures WeightsAfter(f, y, i)(f, y) == i
  {
    if i > 0 {
      WeightIs(f, y, i - 1);
      assert f in {f, y} - Marks(f, y, i - 1);
    }
  }

  lemma UntouchedSmall(f: CallNode, y: CallNode, i: nat)
    requires f.fact && !y.fact
    ensures Small(i, Untouched(f, y, i)) && (i > 0 ==> Small(i, Unfetched(f, y, i)))
  {
    WeightIs(f, y, i);
    var w := WeightsAfter(f, y, i);
    assert SumIn([f], y, w) == w(f, y) + SumIn([f][1..], y, w) && [f][1..] == [];
    hide WeightsAfter, SumIn;
  }

  lemma FactWalk(f: CallNode, y: CallNode, i: nat, k0: Counters, k: Counters)
    requires f.fact && !y.fact && k0.Keys == {f, y} && k == k0[y := k0[y] + 1]
    ensures Walked(map[f := [], y := [f]], map[f := [y], y := []], f, Marks(f, y, i), {f, y}, k0, k)
  {
    var ins: Graph := map[f := [], y := [f]];
    ReachSelf(ins, f);
    ReachStep(ins, y, f, f);
    var d := {f, y} - Marks(f, y, i);
    assert f in d;
    assert Count([], d) == 0;
    assert Count([f], d) == 1 by { assert [f][1..] == []; }
    assert Shifted(ins, k0, k, true, d);
  }

  lemma FactListed(f: CallNode, y: CallNode, i: nat)
    requires f != y
    ensures var list := if i == 0 then [f, y] else [f];
            Listed(list, [], {f, y} - Marks(f, y, i)) && Tidy(map[f := [y], y := []], Marks(f, y, i), {f, y}, [], list)
  {
    var list := if i == 0 then [f, y] else [f];
    assert list[..|list| - 0] == list && list[|list| - 0..] == [];
    assert Elements(list) == {f, y} - Marks(f, y, i);
  }

  lemma FactRaised(f: CallNode, y: CallNode, i: nat)
    requires f.fact && !y.fact
    ensures var s := Untouched(f, y, i);
            var k0 := s.counts[f := s.counts[f] + 1];
            Raised(s.ins, k0, {f, y} - Marks(f, y, i)) == k0[y := k0[y] + 1] &&
            Cut(k0[y := k0[y] + 1], FalseWidth) == Unfetched(f, y, i + 1).counts
  {
    hide Count;
    FactCounted(f, y, {f, y} - Marks(f, y, i));
    CutStep(i, 1, FalseWidth);
  }

  lemma FactCounted(f: CallNode, y: CallNode, d: set<CallNode>)
    requires f in d
    ensures Count([], d) == 0 && Count([f], d) == 1
  {
    assert [f][1..] == [];
  }

  lemma FactInvalidated(f: CallNode, y: CallNode, i: nat)
    requires f.fact && !y.fact
    ensures var s, s2 := Untouched(f, y, i), Unfetched(f, y, i + 1);
            InvalidatedCut(s.g, s.ins, f, s.deleted, s2.deleted, s.counts, s2.counts, s.affected, s2.affected)
  {
    hide Walked, Listed, Tidy, Raised, Cut, WeightsAfter;
    var s, s2 := Untouched(f, y, i), Unfetched(f, y, i + 1);
    var k0 := s.counts[f := s.counts[f] + 1];
    FactWalk(f, y, i, k0, k0[y := k0[y] + 1]);
    FactListed(f, y, i);
    FactRaised(f, y, i);
  }

  /** One more change of the fact. */
  lemma FactChanges(f: CallNode, y: CallNode, i: nat)
    requires f.fact && !y.fact
    ensures InvalidateStep(Untouched(f, y, i), f, Unfetched(f, y, i + 1))
  {
    hide InvalidatedCut, ChargedBy;
    FactInvalidated(f, y, i);
    var s, s2 := Untouched(f, y, i), Unfetched(f, y, i + 1);
    assert s2.deleted - s.deleted == {f, y} - Marks(f, y, i);
    assert PairsTo(s.g, f) == {(y, f)};
  }

  lemma FactFetched(f: CallNode, y: CallNode, i: nat)
    requires f.fact && !y.fact && i > 0
    ensures FetchStep(Unfetched(f, y, i), Untouched(f, y, i))
  {
    hide WeightsAfter;
    var s := Unfetched(f, y, i);
    assert s.deleted - (set x | x in s.affected && x.fact) == {y};
  }

  lemma {:induction false} Changes(f: CallNode, y: CallNode, i: nat, n: nat) returns (log: seq<(Event, State)>)
    requires f.fact && !y.fact && i <= n
    ensures Run(Untouched(f, y, i), log) && Clean(Untouched(f, y, i), log) && Within(n, log)
    ensures End(Untouched(f, y, i), log) == Untouched(f, y, n)
    decreases n - i
  {
    hide *;
    if i == n {
      log := [];
      NoEvents(n, Untouched(f, y, i));
    } else {
      var s, s1, s2 := Untouched(f, y, i), Unfetched(f, y, i + 1), Untouched(f, y, i + 1);
      FactChanges(f, y, i);
      FactFetched(f, y, i + 1);
      UntouchedSmall(f, y, i + 1);
      SmallMore(i + 1, n, s1);
      SmallMore(i + 1, n, s2);
      log := Changes(f, y, i + 1, n);
      EventSteps(s, f, s1, s2);
      log := OneFirst(n, s1, Fetch, s2, log);
      log := OneFirst(n, s, Invalidate(f), s1, log);
    }
  }

  lemma NoEvents(bound: int, s: State)
    ensures Run(s, []) && Clean(s, []) && Within(bound, []) && End(s, []) == s
  {
  }

  lemma SmallMore(a: int, b: int, s: State)
    requires Small(a, s) && a <= b
    ensures Small(b, s)
  {
  }

  lemma EventSteps(s: State, f: CallNode, s1: State, s2: State)
    requires InvalidateStep(s, f, s1) && FetchStep(s1, s2)
    ensures Step(s, Invalidate(f), s1) && CleanEvent(s, Invalidate(f)) && Step(s1, Fetch, s2) && CleanEvent(s1, Fetch)
  {
    hide InvalidateStep, FetchStep;
  }

  /** All runs in which calls are evaluated without marked facts stay current if and only if fewer than 16384
      invalidations are outstanding for each call. */
  lemma CurrentIffCounted(bound: nat, f: CallNode, y: CallNode)
    requires f.fact && !y.fact
    ensures (forall s, log :: Fresh(s) && Run(s, log) && Clean(s, log) && Within(bound, log) ==>
             Current(End(s, log))) <==>
            bound < FalseWidth
  {
    if bound < FalseWidth {
      forall s, log | Fresh(s) && Run(s, log) && Clean(s, log) && Within(bound, log)
        ensures Current(End(s, log))
      {
        WithinMore(bound, FalseWidth - 1, log);
        hide Fresh, Run, Clean, Current, Within;
        RunsStayCurrent(s, log);
      }
    } else {
      var log := Changes(f, y, 0, FalseWidth);
      WithinMore(FalseWidth, bound, log);
      FactStarts(f, y);
      NothingTouched(f, y);
      StaleUnnoticed(f, y);
    }
  }

  lemma WithinMore(a: int, b: int, log: seq<(Event, State)>)
    requires Within(a, log) && a <= b
    ensures Within(b, log)
  {
    forall i | 0 <= i < |log|
      ensures Small(b, log[i].1)
    {
      SmallMore(a, b, log[i].1);
    }
  }

  lemma NothingTouched(f: CallNode, y: CallNode)
    requires f != y
    ensures Untouched(f, y, 0) == FactAndCall(f, y)
  {
  }

  lemma StaleUnnoticed(f: CallNode, y: CallNode)
    requires f.fact && !y.fact
    ensures !Current(Untouched(f, y, FalseWidth))
  {
    hide WeightsAfter;
    var s := Untouched(f, y, FalseWidth);
    assert (y, f) in s.behind && Used(s, y);
  }

  // ---------------------------------------------------------------- runs that use a marked fact

  lemma RunFirst(s: State, e: Event, s2: State, rest: seq<(Event, State)>) returns (log: seq<(Event, State)>)
    requires Step(s, e, s2) && Run(s2, rest)
    ensures Run(s, log) && End(s, log) == End(s2, rest)
  {
    hide Step;
    log := [(e, s2)] + rest;
    assert log[1..] == rest;
  }

  ghost function Reevaluating(f: CallNode, y: CallNode): State
    requires f != y
  {
    var s := Unfetched(f, y, 1);
    s.(counts := s.counts[y := 0], direct := s.direct[y := 0], busy := {y}, w := ClearedFor(s.w, y), behind := {})
  }

  ghost function Reevaluated(f: CallNode, y: CallNode): State
    requires f != y
  {
    Reevaluating(f, y).(deleted := {f}, busy := {})
  }

  lemma StartsAgain(f: CallNode, y: CallNode)
    requires f.fact && !y.fact
    ensures StartStep(Unfetched(f, y, 1), y, Reevaluating(f, y))
  {
    hide WeightsAfter, ClearedFor;
    var s := Unfetched(f, y, 1);
    assert (set p | p in s.due && p.0 != y) + (set p | p in PairsTo(s.g, y) && p.0 !in s.busy + {y}) == {};
    assert (set p | p in s.behind && p.0 != y) == {};
  }

  lemma FinishesAgain(f: CallNode, y: CallNode)
    requires f.fact && !y.fact
    ensures FinishStep(Reevaluating(f, y), y, true, [f], Reevaluated(f, y))
  {
    hide WeightsAfter, ClearedFor, Mirrored;
    OneEdgeMirrored(f, y);
    var r, r2 := Reevaluating(f, y), Reevaluated(f, y);
    assert r2.ins == r.ins[y := [f]];
    assert Rewired(r, y, [f], r2);
    assert (set p | p in r.due && p.1 != y) == {} && (set p | p in r.due && p.1 == y) == {};
  }

  lemma ReevaluatedHidden(f: CallNode, y: CallNode)
    requires f.fact && !y.fact
    ensures Hidden(Reevaluated(f, y), f, y)
  {
    hide WeightsAfter, Mirrored, SumIn;
    OneEdgeMirrored(f, y);
    OneSum(f, y, Reevaluated(f, y).w);
  }

  /** The fact changes, and the call is called again before the affected list has been fetched: the next change goes
      unnoticed. */
  lemma UnfetchedRun(f: CallNode, y: CallNode) returns (s: State, log: seq<(Event, State)>)
    requires f.fact && !y.fact
    ensures Fresh(s) && Run(s, log) && !Current(End(s, log))
  {
    hide *;
    s := Untouched(f, y, 0);
    FactStarts(f, y);
    NothingTouched(f, y);
    FactChanges(f, y, 0);
    StartsAgain(f, y);
    FinishesAgain(f, y);
    ReevaluatedHidden(f, y);
    log := HiddenGoesStale(Reevaluated(f, y), f, y);
    ThreeSteps(s, Unfetched(f, y, 1), Reevaluating(f, y), Reevaluated(f, y), f, y);
    log := RunFirst(Reevaluating(f, y), Finish(y, true, [f]), Reevaluated(f, y), log);
    log := RunFirst(Unfetched(f, y, 1), Start(y), Reevaluating(f, y), log);
    log := RunFirst(s, Invalidate(f), Unfetched(f, y, 1), log);
  }

  lemma ThreeSteps(s: State, s1: State, s2: State, s3: State, f: CallNode, y: CallNode)
    requires InvalidateStep(s, f, s1) && StartStep(s1, y, s2) && FinishStep(s2, y, true, [f], s3)
    ensures Step(s, Invalidate(f), s1) && Step(s1, Start(y), s2) && Step(s2, Finish(y, true, [f]), s3)
  {
    hide InvalidateStep, StartStep, FinishStep;
  }

  ghost function Removed(f: CallNode, y: CallNode): State
    requires f != y
  {
    var s := FactAndCall(f, y);
    s.(g := map[f := [], y := []], ins := map[f := [], y := []], deleted := {f}, w := WithoutWeights(s.w, {y}))
  }

  ghost function Recreated(f: CallNode, y: CallNode): State
    requires f != y
  {
    Removed(f, y).(g := map[f := [y], y := []], ins := map[f := [], y := [f]])
  }

  lemma OnlyUser(f: CallNode, y: CallNode)
    requires f.fact && !y.fact
    ensures Abolish.Abolished(FactAndCall(f, y).g, y) == {f, y} && Abolish.Gone({f, y}) == {y}
  {
    var g := FactAndCall(f, y).g;
    ReachSelf(g, y);
    ReachStep(g, f, y, y);
    assert Supporters(g, y) == {f, y};
  }

  lemma Removes(f: CallNode, y: CallNode)
    requires f.fact && !y.fact
    ensures RemoveStep(FactAndCall(f, y), y, Removed(f, y))
  {
    hide Abolish.Abolished, Abolish.Gone;
    OnlyUser(f, y);
    var s, s2 := FactAndCall(f, y), Removed(f, y);
    assert Abolish.Filter([y], {y}) == [];
    assert {f, y} - {y} == {f};
    assert (set q | q in s.behind && q.0 !in {y}) == {};
    assert WithoutCalls(s.g, {y}) == s2.g && WithoutSupports(s.ins, {y}) == s2.ins;
    assert ZeroFor(s.counts, {y}) == s.counts;
  }

  lemma Creates(f: CallNode, y: CallNode)
    requires f.fact && !y.fact
    ensures CreateStep(Removed(f, y), y, [f], Recreated(f, y)) && Hidden(Recreated(f, y), f, y)
  {
    OneEdgeMirrored(f, y);
    CreatesStep(f, y);
    CreatesHidden(f, y);
  }

  lemma OneEdgeMirrored(f: CallNode, y: CallNode)
    requires f != y
    ensures Mirrored(map[f := [y], y := []], map[f := [], y := [f]])
  {
  }

  lemma CreatesStep(f: CallNode, y: CallNode)
    requires f.fact && !y.fact && Mirrored(map[f := [y], y := []], map[f := [], y := [f]])
    ensures CreateStep(Removed(f, y), y, [f], Recreated(f, y))
  {
    hide Mirrored;
    var r, r2 := Removed(f, y), Recreated(f, y);
    assert r2.ins == r.ins[y := [f]];
    assert Rewired(r, y, [f], r2);
  }

  lemma CreatesHidden(f: CallNode, y: CallNode)
    requires f.fact && !y.fact && Mirrored(map[f := [y], y := []], map[f := [], y := [f]])
    ensures Hidden(Recreated(f, y), f, y)
  {
    hide Mirrored, SumIn;
    OneSum(f, y, Recreated(f, y).w);
  }

  lemma OneSum(f: CallNode, y: CallNode, w: Weights)
    ensures SumIn([f], y, w) == w(f, y)
  {
    assert SumIn([f], y, w) == w(f, y) + SumIn([f][1..], y, w) && [f][1..] == [];
  }

  /** The only call that uses a fact is abolished and called again: no change of the fact is noticed any more. */
  lemma AbolishedRun(f: CallNode, y: CallNode) returns (s: State, log: seq<(Event, State)>)
    requires f.fact && !y.fact
    ensures Fresh(s) && Run(s, log) && !Current(End(s, log))
  {
    hide *;
    s := FactAndCall(f, y);
    FactStarts(f, y);
    Removes(f, y);
    Creates(f, y);
    log := HiddenGoesStale(Recreated(f, y), f, y);
    TwoSteps(s, Removed(f, y), Recreated(f, y), f, y);
    log := RunFirst(Removed(f, y), Create(y, [f]), Recreated(f, y), log);
    log := RunFirst(s, Remove(y), Removed(f, y), log);
  }

  lemma TwoSteps(s: State, s1: State, s2: State, f: CallNode, y: CallNode)
    requires RemoveStep(s, y, s1) && CreateStep(s1, y, [f], s2)
    ensures Step(s, Remove(y), s1) && Step(s1, Create(y, [f]), s2)
  {
    hide RemoveStep, CreateStep;
  }
}
