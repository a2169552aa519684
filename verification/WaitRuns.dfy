/** Runs of threads that call each other's tables: who computes which table, who waits for whom, and what leaders take
    over.  The wait-for graph stays acyclic in all of them exactly under two conditions on what threads do. */
module WaitRuns {
  import opened WaitFor

  type Table = nat

  datatype Sys = Sys(
    waits: Waits,
    // `pending[l]` holds the threads that the leader `l` has detached but not yet redirected.
    pending: map<Tid, seq<Tid>>,
    // The thread that computes a table, or has computed it.
    owner: map<Table, Tid>,
    done: set<Table>,
    // The tables that a thread is computing, the oldest first.
    stacks: map<Tid, seq<Table>>,
    // The table that a thread has called and whose completion it waits for.
    goal: map<Tid, Table>,
    // What a thread is registered as waiting for.
    wanted: map<Tid, Table>,
    // The table on account of which a leader resets the next thread.
    sought: map<Tid, Table>)

  // What a thread does next.
  datatype Act =
    | Call(x: Table)                  // it starts to compute a new table
    | Again(x: Table)                 // it starts again on a table it has taken over
    | Finish(j: nat)                  // it completes its youngest tables
    | Leave                           // the table it waits for is complete
    | Wait(x: Table)                  // it waits for the owner of a table
    | Lead(x: Table, path: seq<Tid>)  // it becomes the leader, and detaches the threads that wait for it
    | Redirect(j: nat)                // the leader resets the next of them and makes it wait for itself
    | End(j: nat)                     // the leader resets itself

  function Stack(s: Sys, t: Tid): seq<Table> {
    if t in s.stacks then s.stacks[t] else []
  }

  ghost predicate Detached(s: Sys, x: Tid) {
    exists l :: l in s.pending && x in s.pending[l]
  }

  /** How far threads may deviate: `stale`, whether a thread may become the leader while its waiting_for_tid
      is still set from an earlier turn of its loop; `awake`, whether a detached thread may act before its
      leader has redirected it. */
  datatype Policy = Policy(stale: bool, awake: bool)

  ghost predicate MayAct(pol: Policy, s: Sys, t: Tid) {
    t !in s.pending && (Detached(s, t) ==> pol.awake)
  }

  // ---------------------------------------------------------------- what a thread does

  ghost predicate Computes(s: Sys, t: Tid, a: Act, s2: Sys) {
    && t !in s.goal
    && match a
       case Call(x) => x !in s.owner && s2 == s.(owner := s.owner[x := t], stacks := s.stacks[t := Stack(s, t) + [x]])
       case Again(x) =>
         && x in s.owner && s.owner[x] == t && x !in s.done && x !in Stack(s, t)
         && s2 == s.(stacks := s.stacks[t := Stack(s, t) + [x]])
       case Finish(j) =>
         && j <= |Stack(s, t)|
         && s2 == s.(done := s.done + (set x | x in Stack(s, t)[j..]), stacks := s.stacks[t := Stack(s, t)[..j]])
       case _ => false
  }

  /** The table `x` is incomplete: `t` has called it already, or calls it now. */
  ghost predicate Asks(s: Sys, t: Tid, x: Table) {
    x in s.owner && x !in s.done && if t in s.goal then x == s.goal[t] else s.owner[x] != t
  }

  /** One turn of the loop of IS_INCOMPLETE, under the mutex. */
  ghost predicate Turns(s: Sys, t: Tid, a: Act, s2: Sys) {
    match a
    case Leave =>
      && t in s.goal && s.goal[t] in s.done
      && s2 == s.(waits := s.waits - {t}, goal := s.goal - {t}, wanted := s.wanted - {t})
    case Wait(x) =>
      && Asks(s, t, x) && !Reach(s.waits, s.owner[x], t)
      && s2 == s.(waits := s.waits[t := s.owner[x]], goal := s.goal[t := x], wanted := s.wanted[t := x])
    case Lead(x, path) =>
      && Asks(s, t, x) && PathFromTo(s.waits, s.owner[x], path + [t], t)
      && s2 == s.(waits := s.waits - (set y | y in path), pending := s.pending[t := path], goal := s.goal - {t},
                  sought := s.sought[t := x])
    case _ => false
  }

  /** The thread `x` is to be reset, as it still computes what is sought. */
  ghost predicate Resets(s: Sys, t: Tid, x: Tid) {
    t in s.sought && s.sought[t] in s.owner && s.owner[s.sought[t]] == x && s.sought[t] in Stack(s, x)
  }

  ghost function NextSought(s: Sys, t: Tid, x: Tid): map<Tid, Table> {
    if x in s.wanted then s.sought[t := s.wanted[x]] else s.sought - {t}
  }

  /** The incomplete tables of `x` from its frame `j` up belong to `t` from now on. */
  ghost function TakenOver(s: Sys, t: Tid, x: Tid, j: nat): map<Table, Tid>
    requires j <= |Stack(s, x)|
  {
    map y | y in s.owner :: if y in Stack(s, x)[j..] && y !in s.done then t else s.owner[y]
  }

  /** The leader, no longer holding the mutex, deals with the next detached thread or is done.  Where in a stack the
      leader of the table sought is, is up to the environment. */
  ghost predicate Proceeds(s: Sys, t: Tid, a: Act, s2: Sys) {
    && t in s.pending
    && match a
       case Redirect(j) =>
         && s.pending[t] != []
         && var x := s.pending[t][0];
            var r := s.(waits := s.waits[x := t], pending := s.pending[t := s.pending[t][1..]],
                        sought := NextSought(s, t, x));
            if Resets(s, t, x)
            then && j < |Stack(s, x)| && s.sought[t] in Stack(s, x)[j..]
                 && s2 == r.(owner := TakenOver(s, t, x, j), stacks := s.stacks[x := Stack(s, x)[..j]],
                             wanted := s.wanted[x := Stack(s, x)[j]])
            else s2 == r
       case End(j) =>
         && s.pending[t] == [] && (j < |Stack(s, t)| || j == 0 == |Stack(s, t)|)
         && s2 == s.(pending := s.pending - {t}, sought := s.sought - {t},
                     stacks := s.stacks[t := Stack(s, t)[..j]])
       case _ => false
  }

  ghost predicate Does(pol: Policy, s: Sys, t: Tid, a: Act, s2: Sys) {
    || Proceeds(s, t, a, s2)
    || (MayAct(pol, s, t) && (a.Lead? && t in s.waits ==> pol.stale) && (Computes(s, t, a, s2) || Turns(s, t, a, s2)))
  }

  ghost predicate Step(pol: Policy, s: Sys, s2: Sys) {
    exists t, a :: Does(pol, s, t, a, s2)
  }

  // No thread has called a table yet.
  const Idle := Sys(map[], map[], map[], {}, map[], map[], map[], map[])

  ghost predicate Run(pol: Policy, run: seq<Sys>, s: Sys) {
    && |run| > 0
    && run[0] == Idle
    && (forall k :: 0 <= k < |run| - 1 ==> Step(pol, run[k], run[k + 1]))
    && s == run[|run| - 1]
  }

  // ---------------------------------------------------------------- safety

  const Strict := Policy(false, false)

  ghost predicate Inv(s: Sys) {
    && Acyclic(s.waits)
    && forall l :: l in s.pending ==> l !in s.waits && !Detached(s, l)
  }

  lemma ProceedKeepsInv(s: Sys, t: Tid, a: Act, s2: Sys)
    requires Inv(s) && Proceeds(s, t, a, s2)
    ensures Inv(s2)
  {
    if s.pending[t] != [] {
      var x := s.pending[t][0];
      assert Detached(s, x);
      if Reach(s.waits, t, x) { ReachNext(s.waits, t, x); }
      NewEdge(s.waits, x, t);
    }
    assert forall l :: Detached(s2, l) ==> Detached(s, l);
  }

  lemma TurnKeepsInv(s: Sys, t: Tid, a: Act, s2: Sys)
    requires Inv(s) && Turns(s, t, a, s2) && t !in s.pending && !Detached(s, t) && (a.Lead? ==> t !in s.waits)
    ensures Inv(s2)
  {
    match a {
      case Leave =>
        AcyclicSubgraph(s.waits, s2.waits);
        assert forall l :: Detached(s2, l) <==> Detached(s, l);
      case Wait(x) =>
        NewEdge(s.waits, t, s.owner[x]);
        assert forall l :: Detached(s2, l) <==> Detached(s, l);
      case Lead(x, path) =>
        AcyclicSubgraph(s.waits, s2.waits);
        PathIsSimple(s.waits, path, t);
        assert forall l :: Detached(s2, l) ==> Detached(s, l) || l in path;
    }
  }

  lemma StepKeepsInv(s: Sys, s2: Sys)
    requires Inv(s) && Step(Strict, s, s2)
    ensures Inv(s2)
  {
    hide Inv, Proceeds, Turns, Computes;
    var t, a :| Does(Strict, s, t, a, s2);
    if Proceeds(s, t, a, s2) {
      ProceedKeepsInv(s, t, a, s2);
    } else if Turns(s, t, a, s2) {
      TurnKeepsInv(s, t, a, s2);
    } else {
      ComputeKeepsInv(s, t, a, s2);
    }
  }

  lemma ComputeKeepsInv(s: Sys, t: Tid, a: Act, s2: Sys)
    requires Inv(s) && Computes(s, t, a, s2)
    ensures Inv(s2)
  {
    assert s2.waits == s.waits && s2.pending == s.pending;
    assert forall l :: Detached(s2, l) <==> Detached(s, l);
  }

  lemma {:induction false} StrictRunsAcyclic(run: seq<Sys>, k: nat, s: Sys)
    requires Run(Strict, run, s) && k < |run|
    ensures Inv(run[k])
  {
    if k > 0 {
      StrictRunsAcyclic(run, k - 1, s);
      assert Step(Strict, run[k - 1], run[k - 1 + 1]);
      StepKeepsInv(run[k - 1], run[k]);
    }
  }

  ghost predicate AlwaysAcyclic(pol: Policy) {
    forall run, s :: Run(pol, run, s) ==> Acyclic(s.waits)
  }

  /** The wait-for graph stays acyclic in all runs if and only if no thread leads with a wait of its own left
      over and no detached thread acts before it has been redirected. */
  lemma AcyclicIffStrict(pol: Policy)
    ensures AlwaysAcyclic(pol) <==> pol == Strict
  {
    if pol == Strict {
      forall run, s | Run(pol, run, s)
        ensures Acyclic(s.waits)
      {
        StrictRunsAcyclic(run, |run| - 1, s);
      }
    } else {
      var run: seq<Sys>, s: Sys;
      if pol.stale {
        run, s := StaleRun(pol);
      } else {
        run, s := AwakeRun(pol);
      }
      assert Run(pol, run, s) && !Acyclic(s.waits);
    }
  }

  // ---------------------------------------------------------------- runs that go wrong

  lemma OneMore(pol: Policy, run: seq<Sys>, s: Sys, t: Tid, a: Act, s2: Sys) returns (run2: seq<Sys>)
    requires Run(pol, run, s) && Does(pol, s, t, a, s2)
    ensures Run(pol, run2, s2)
  {
    hide Does;
    run2 := run + [s2];
    forall k | 0 <= k < |run2| - 1
      ensures Step(pol, run2[k], run2[k + 1])
    {
      if k < |run| - 1 { assert Step(pol, run[k], run[k + 1]); }
    }
  }

  lemma Started(pol: Policy) returns (run: seq<Sys>)
    ensures Run(pol, run, Idle)
  {
    run := [Idle];
  }

  lemma IdleUnreachable(w: Waits, a: Tid, b: Tid)
    requires a !in w && a != b
    ensures !Reach(w, a, b)
  {
    ReachNext(w, a, b);
  }

  lemma OneOnPath(w: Waits, x: Tid, t: Tid)
    requires x in w && w[x] == t
    ensures PathFromTo(w, x, [x] + [t], t) && w - (set y | y in [x]) == w - {x}
  {
    assert (set y | y in [x]) == {x};
  }

  // The tables.
  const X: Table := 1
  const Y: Table := 2
  const Z: Table := 3
  const U: Table := 4

  predicate Owned(s: Sys, x: Table, t: Tid) {
    x in s.owner && s.owner[x] == t
  }

  predicate Computing(s: Sys, t: Tid, tables: seq<Table>) {
    t in s.stacks && s.stacks[t] == tables
  }

  predicate Sought(s: Sys, t: Tid, x: Table) {
    t in s.sought && s.sought[t] == x
  }

  lemma Calls(pol: Policy, run: seq<Sys>, s: Sys, t: Tid, x: Table) returns (run2: seq<Sys>, s2: Sys)
    requires Run(pol, run, s) && MayAct(pol, s, t) && t !in s.goal && x !in s.owner && t !in s.stacks
    ensures s2 == s.(owner := s.owner[x := t], stacks := s.stacks[t := [x]]) && Run(pol, run2, s2)
  {
    s2 := s.(owner := s.owner[x := t], stacks := s.stacks[t := [x]]);
    assert [] + [x] == [x];
    run2 := OneMore(pol, run, s, t, Call(x), s2);
  }

  lemma StartsAgain(pol: Policy, run: seq<Sys>, s: Sys, t: Tid, x: Table) returns (run2: seq<Sys>, s2: Sys)
    requires Run(pol, run, s) && MayAct(pol, s, t) && t !in s.goal && x in s.owner && s.owner[x] == t && x !in s.done
    requires t in s.stacks && s.stacks[t] == []
    ensures s2 == s.(stacks := s.stacks[t := [x]]) && Run(pol, run2, s2)
  {
    s2 := s.(stacks := s.stacks[t := [x]]);
    assert [] + [x] == [x];
    run2 := OneMore(pol, run, s, t, Again(x), s2);
  }

  lemma Finishes(pol: Policy, run: seq<Sys>, s: Sys, t: Tid, x: Table) returns (run2: seq<Sys>, s2: Sys)
    requires Run(pol, run, s) && MayAct(pol, s, t) && t !in s.goal && t in s.stacks && s.stacks[t] == [x]
    ensures s2 == s.(done := s.done + {x}, stacks := s.stacks[t := []]) && Run(pol, run2, s2)
  {
    s2 := s.(done := s.done + {x}, stacks := s.stacks[t := []]);
    assert [x][0..] == [x] && [x][..0] == [] && (set y | y in [x][0..]) == {x};
    run2 := OneMore(pol, run, s, t, Finish(0), s2);
  }

  lemma Leaves(pol: Policy, run: seq<Sys>, s: Sys, t: Tid) returns (run2: seq<Sys>, s2: Sys)
    requires Run(pol, run, s) && MayAct(pol, s, t) && t in s.goal && s.goal[t] in s.done
    ensures s2 == s.(waits := s.waits - {t}, goal := s.goal - {t}, wanted := s.wanted - {t}) && Run(pol, run2, s2)
  {
    s2 := s.(waits := s.waits - {t}, goal := s.goal - {t}, wanted := s.wanted - {t});
    run2 := OneMore(pol, run, s, t, Leave, s2);
  }

  lemma Waits(pol: Policy, run: seq<Sys>, s: Sys, t: Tid, x: Table, o: Tid) returns (run2: seq<Sys>, s2: Sys)
    requires Run(pol, run, s) && MayAct(pol, s, t) && t !in s.goal
    requires x in s.owner && x !in s.done && s.owner[x] == o != t && !Reach(s.waits, o, t)
    ensures s2 == s.(waits := s.waits[t := o], goal := s.goal[t := x], wanted := s.wanted[t := x])
    ensures Run(pol, run2, s2)
  {
    s2 := s.(waits := s.waits[t := o], goal := s.goal[t := x], wanted := s.wanted[t := x]);
    run2 := OneMore(pol, run, s, t, Wait(x), s2);
  }

  lemma Leads(pol: Policy, run: seq<Sys>, s: Sys, t: Tid, x: Table, o: Tid) returns (run2: seq<Sys>, s2: Sys)
    requires Run(pol, run, s) && MayAct(pol, s, t) && (t in s.waits ==> pol.stale) && Asks(s, t, x) && s.owner[x] == o
    requires o in s.waits && s.waits[o] == t
    ensures s2 == s.(waits := s.waits - {o}, pending := s.pending[t := [o]], goal := s.goal - {t},
                     sought := s.sought[t := x])
    ensures Run(pol, run2, s2)
  {
    s2 := s.(waits := s.waits - {o}, pending := s.pending[t := [o]], goal := s.goal - {t}, sought := s.sought[t := x]);
    OneOnPath(s.waits, o, t);
    run2 := OneMore(pol, run, s, t, Lead(x, [o]), s2);
  }

  lemma Redirects(pol: Policy, run: seq<Sys>, s: Sys, t: Tid, x: Table, o: Tid) returns (run2: seq<Sys>, s2: Sys)
    requires Run(pol, run, s) && t in s.pending && s.pending[t] == [o] && t in s.sought && s.sought[t] == x
    requires x in s.owner && s.owner[x] == o && x !in s.done && o in s.stacks && s.stacks[o] == [x]
    ensures s2 == s.(waits := s.waits[o := t], pending := s.pending[t := []], sought := NextSought(s, t, o),
                     owner := s.owner[x := t], stacks := s.stacks[o := []], wanted := s.wanted[o := x])
    ensures Run(pol, run2, s2)
  {
    s2 := s.(waits := s.waits[o := t], pending := s.pending[t := []], sought := NextSought(s, t, o),
             owner := s.owner[x := t], stacks := s.stacks[o := []], wanted := s.wanted[o := x]);
    assert [o][1..] == [] && [x][0..] == [x] && [x][..0] == [];
    assert TakenOver(s, t, o, 0) == s.owner[x := t];
    run2 := OneMore(pol, run, s, t, Redirect(0), s2);
  }

  lemma Ends(pol: Policy, run: seq<Sys>, s: Sys, t: Tid) returns (run2: seq<Sys>, s2: Sys)
    requires Run(pol, run, s) && t in s.pending && s.pending[t] == [] && t in s.stacks && |s.stacks[t]| <= 1
    ensures s2 == s.(pending := s.pending - {t}, sought := s.sought - {t}, stacks := s.stacks[t := []])
    ensures Run(pol, run2, s2)
  {
    s2 := s.(pending := s.pending - {t}, sought := s.sought - {t}, stacks := s.stacks[t := []]);
    assert s.stacks[t][..0] == [];
    run2 := OneMore(pol, run, s, t, End(0), s2);
  }

  /** Thread 1 waits for a table of 2, which waits for a table of 3. */
  lemma StaleBegins(pol: Policy) returns (run: seq<Sys>, s: Sys)
    ensures Run(pol, run, s)
    ensures s.waits == map[1 := 2, 2 := 3] && s.pending == map[] && s.goal == map[1 := X, 2 := Z]
    ensures s.done == {} && Owned(s, X, 2) && Owned(s, Y, 1) && Owned(s, Z, 3)
    ensures Computing(s, 1, [Y]) && Computing(s, 2, [X]) && Computing(s, 3, [Z])
  {
    hide Run;
    run := Started(pol);
    s := Idle;
    run, s := Calls(pol, run, s, 2, X);
    run, s := Calls(pol, run, s, 1, Y);
    run, s := Calls(pol, run, s, 3, Z);
    IdleUnreachable(s.waits, 2, 1);
    run, s := Waits(pol, run, s, 1, X, 2);
    IdleUnreachable(s.waits, 3, 2);
    run, s := Waits(pol, run, s, 2, Z, 3);
  }

  /** Thread 3 becomes the leader and takes over the first table. */
  lemma StaleGrabs(pol: Policy, run0: seq<Sys>, s0: Sys) returns (run: seq<Sys>, s: Sys)
    requires Run(pol, run0, s0)
    requires s0.waits == map[1 := 2, 2 := 3] && s0.pending == map[] && s0.goal == map[1 := X, 2 := Z]
    requires s0.done == {} && Owned(s0, X, 2) && Owned(s0, Y, 1) && Owned(s0, Z, 3)
    requires Computing(s0, 1, [Y]) && Computing(s0, 2, [X]) && Computing(s0, 3, [Z])
    ensures Run(pol, run, s)
    ensures s.waits == map[1 := 2, 2 := 3] && s.pending == map[] && s.goal == map[1 := X, 2 := Z]
    ensures s.done == {} && Owned(s, X, 3) && Owned(s, Y, 1) && Owned(s, Z, 3)
    ensures Computing(s, 1, [Y]) && Computing(s, 2, []) && Computing(s, 3, [])
  {
    hide Run;
    run, s := run0, s0;
    run, s := Leads(pol, run, s, 3, X, 2);
    run, s := Redirects(pol, run, s, 3, X, 2);
    run, s := Ends(pol, run, s, 3);
  }

  /** It completes its own table. */
  lemma StaleCompletes(pol: Policy, run0: seq<Sys>, s0: Sys) returns (run: seq<Sys>, s: Sys)
    requires Run(pol, run0, s0)
    requires s0.waits == map[1 := 2, 2 := 3] && s0.pending == map[] && s0.goal == map[1 := X, 2 := Z]
    requires s0.done == {} && Owned(s0, X, 3) && Owned(s0, Y, 1) && Owned(s0, Z, 3)
    requires Computing(s0, 1, [Y]) && Computing(s0, 2, []) && Computing(s0, 3, [])
    ensures Run(pol, run, s)
    ensures s.waits == map[1 := 2, 2 := 3] && s.pending == map[] && s.goal == map[1 := X, 2 := Z]
    ensures s.done == {Z} && Owned(s, X, 3) && Owned(s, Y, 1) && Owned(s, Z, 3)
    ensures Computing(s, 1, [Y]) && Computing(s, 2, []) && Computing(s, 3, [])
  {
    hide Run;
    run, s := run0, s0;
    run, s := StartsAgain(pol, run, s, 3, Z);
    run, s := Finishes(pol, run, s, 3, Z);
  }

  /** Thread 2 goes on, and 3 waits for a table of 1. */
  lemma StaleGoesOn(pol: Policy, run0: seq<Sys>, s0: Sys) returns (run: seq<Sys>, s: Sys)
    requires Run(pol, run0, s0)
    requires s0.waits == map[1 := 2, 2 := 3] && s0.pending == map[] && s0.goal == map[1 := X, 2 := Z]
    requires s0.done == {Z} && Owned(s0, X, 3) && Owned(s0, Y, 1) && Owned(s0, Z, 3)
    requires Computing(s0, 1, [Y]) && Computing(s0, 2, []) && Computing(s0, 3, [])
    ensures Run(pol, run, s)
    ensures s.waits == map[1 := 2, 3 := 1] && s.pending == map[] && s.goal == map[1 := X, 3 := Y]
    ensures s.done == {Z} && Owned(s, X, 3) && Owned(s, Y, 1) && Owned(s, Z, 3)
    ensures Computing(s, 1, [Y]) && Computing(s, 2, []) && Computing(s, 3, [X])
  {
    hide Run;
    run, s := run0, s0;
    run, s := StartsAgain(pol, run, s, 3, X);
    run, s := Leaves(pol, run, s, 2);
    ReachNext(s.waits, 1, 3);
    IdleUnreachable(s.waits, 2, 3);
    run, s := Waits(pol, run, s, 3, Y, 1);
  }

  /** Thread 1 still waits for 2 when it becomes the leader of 3; before it redirects 3, thread 2 starts to wait
      for 3. */
  lemma StaleRun(pol: Policy) returns (run: seq<Sys>, s: Sys)
    requires pol.stale
    ensures Run(pol, run, s) && !Acyclic(s.waits)
  {
    hide Run;
    run, s := StaleBegins(pol);
    run, s := StaleGrabs(pol, run, s);
    run, s := StaleCompletes(pol, run, s);
    run, s := StaleGoesOn(pol, run, s);
    run, s := Leads(pol, run, s, 1, X, 3);
    IdleUnreachable(s.waits, 3, 2);
    run, s := Waits(pol, run, s, 2, X, 3);
    run, s := Redirects(pol, run, s, 1, X, 3);
    assert PathFromTo(s.waits, 1, [1, 2, 3, 1], 1);
  }

  /** Thread 2 waits for a table of 1, which waits for a table of 4. */
  lemma AwakeBegins(pol: Policy) returns (run: seq<Sys>, s: Sys)
    ensures Run(pol, run, s)
    ensures s.waits == map[1 := 4, 2 := 1] && s.pending == map[] && s.goal == map[1 := U, 2 := X]
    ensures s.done == {} && Owned(s, X, 1) && Owned(s, Y, 2) && Owned(s, Z, 3) && Owned(s, U, 4)
    ensures Computing(s, 1, [X]) && Computing(s, 2, [Y]) && Computing(s, 3, [Z]) && Computing(s, 4, [U])
  {
    hide Run;
    run := Started(pol);
    s := Idle;
    run, s := Calls(pol, run, s, 1, X);
    run, s := Calls(pol, run, s, 2, Y);
    run, s := Calls(pol, run, s, 3, Z);
    run, s := Calls(pol, run, s, 4, U);
    IdleUnreachable(s.waits, 1, 2);
    run, s := Waits(pol, run, s, 2, X, 1);
    IdleUnreachable(s.waits, 4, 1);
    run, s := Waits(pol, run, s, 1, U, 4);
  }

  /** Thread 4 becomes the leader, takes over the first table, and completes its own. */
  lemma AwakeGrabs(pol: Policy, run0: seq<Sys>, s0: Sys) returns (run: seq<Sys>, s: Sys)
    requires Run(pol, run0, s0)
    requires s0.waits == map[1 := 4, 2 := 1] && s0.pending == map[] && s0.goal == map[1 := U, 2 := X]
    requires s0.done == {} && Owned(s0, X, 1) && Owned(s0, Y, 2) && Owned(s0, Z, 3) && Owned(s0, U, 4)
    requires Computing(s0, 1, [X]) && Computing(s0, 2, [Y]) && Computing(s0, 3, [Z]) && Computing(s0, 4, [U])
    ensures Run(pol, run, s)
    ensures s.waits == map[1 := 4, 2 := 1] && s.pending == map[] && s.goal == map[1 := U, 2 := X]
    ensures s.done == {U} && Owned(s, X, 4) && Owned(s, Y, 2) && Owned(s, Z, 3) && Owned(s, U, 4)
    ensures Computing(s, 1, []) && Computing(s, 2, [Y]) && Computing(s, 3, [Z]) && Computing(s, 4, [])
  {
    hide Run;
    run, s := run0, s0;
    run, s := Leads(pol, run, s, 4, X, 1);
    run, s := Redirects(pol, run, s, 4, X, 1);
    run, s := Ends(pol, run, s, 4);
    run, s := StartsAgain(pol, run, s, 4, U);
    run, s := Finishes(pol, run, s, 4, U);
  }

  /** Thread 1 goes on, 4 starts on the table it has taken over, and 3 waits for a table of 2. */
  lemma AwakeGoesOn(pol: Policy, run0: seq<Sys>, s0: Sys) returns (run: seq<Sys>, s: Sys)
    requires Run(pol, run0, s0)
    requires s0.waits == map[1 := 4, 2 := 1] && s0.pending == map[] && s0.goal == map[1 := U, 2 := X]
    requires s0.done == {U} && Owned(s0, X, 4) && Owned(s0, Y, 2) && Owned(s0, Z, 3) && Owned(s0, U, 4)
    requires Computing(s0, 1, []) && Computing(s0, 2, [Y]) && Computing(s0, 3, [Z]) && Computing(s0, 4, [])
    ensures Run(pol, run, s)
    ensures s.waits == map[2 := 1, 3 := 2] && s.pending == map[] && s.goal == map[2 := X, 3 := Y]
    ensures s.done == {U} && Owned(s, X, 4) && Owned(s, Y, 2) && Owned(s, Z, 3) && Owned(s, U, 4)
    ensures Computing(s, 1, []) && Computing(s, 2, [Y]) && Computing(s, 3, [Z]) && Computing(s, 4, [X])
  {
    hide Run;
    run, s := run0, s0;
    run, s := Leaves(pol, run, s, 1);
    run, s := StartsAgain(pol, run, s, 4, X);
    ReachNext(s.waits, 2, 3);
    IdleUnreachable(s.waits, 1, 3);
    run, s := Waits(pol, run, s, 3, Y, 2);
  }

  /** Thread 1 becomes the leader and detaches 2; the table for which 2 waits is completed, and 2 becomes the leader
      of 3. */
  lemma AwakeLeads(pol: Policy, run0: seq<Sys>, s0: Sys) returns (run: seq<Sys>, s: Sys)
    requires pol.awake
    requires Run(pol, run0, s0)
    requires s0.waits == map[2 := 1, 3 := 2] && s0.pending == map[] && s0.goal == map[2 := X, 3 := Y]
    requires s0.done == {U} && Owned(s0, X, 4) && Owned(s0, Y, 2) && Owned(s0, Z, 3) && Owned(s0, U, 4)
    requires Computing(s0, 1, []) && Computing(s0, 2, [Y]) && Computing(s0, 3, [Z]) && Computing(s0, 4, [X])
    ensures Run(pol, run, s)
    ensures s.waits == map[] && s.pending == map[1 := [2], 2 := [3]] && s.goal == map[3 := Y]
    ensures s.done == {X, U} && Owned(s, X, 4) && Owned(s, Y, 2) && Owned(s, Z, 3) && Owned(s, U, 4)
    ensures Computing(s, 1, []) && Computing(s, 2, [Y]) && Computing(s, 3, [Z]) && Computing(s, 4, [])
    ensures Sought(s, 1, Y) && Sought(s, 2, Z)
  {
    hide Run;
    run, s := run0, s0;
    run, s := Leads(pol, run, s, 1, Y, 2);
    run, s := Finishes(pol, run, s, 4, X);
    run, s := Leaves(pol, run, s, 2);
    run, s := Leads(pol, run, s, 2, Z, 3);
  }

  /** Thread 2, detached by 1, becomes the leader of 3 and is then redirected to 1, which starts to wait for 3. */
  lemma AwakeRun(pol: Policy) returns (run: seq<Sys>, s: Sys)
    requires pol.awake
    ensures Run(pol, run, s) && !Acyclic(s.waits)
  {
    hide Run;
    run, s := AwakeBegins(pol);
    run, s := AwakeGrabs(pol, run, s);
    run, s := AwakeGoesOn(pol, run, s);
    run, s := AwakeLeads(pol, run, s);
    run, s := Redirects(pol, run, s, 1, Y, 2);
    run, s := Ends(pol, run, s, 1);
    IdleUnreachable(s.waits, 3, 1);
    run, s := Waits(pol, run, s, 1, Z, 3);
    run, s := Redirects(pol, run, s, 2, Z, 3);
    assert PathFromTo(s.waits, 1, [1, 3, 2, 1], 1);
  }
}
