/** Concurrent completion of tables shared between threads.

    Every thread owns a completion stack.  A frame either belongs to a subgoal the thread computes
    itself, or it is an external frame: a consumer of a subgoal that another thread computes.  Frame
    `i`, counted from the bottom of the stack, has the address `-i`, so that a larger address is an
    older frame, as in the emulator.

    The datatypes hold the state, the class runs the protocol of one critical section, and the lemmas
    at the end follow the state over whole runs. */
module Completion {

  type Tid = int

  const MaxThreadDeps: nat := 256

  datatype Subgoal = Subgoal(id: nat, tid: Tid, pos: int)

  datatype Dep = Dep(subgoal: Subgoal, last: int)

  // `read` counts the answers already returned to the consumer of an external frame.
  datatype Frame = Frame(subgoal: Subgoal, read: nat)

  // `parked` is a history variable: the thread has waited since it last raised `lastAns`.
  datatype Thread = Thread(
    stack: seq<Frame>,
    tdl: seq<Dep>,
    completing: bool,
    completed: bool,
    ccLeader: int,
    lastAns: int,
    parked: bool)

  datatype Sys = Sys(threads: map<Tid, Thread>, done: set<Subgoal>, answers: map<Subgoal, nat>)

  datatype Outcome =
    | Scheduled       // unread answers were found: the thread goes back to work
    | Merged          // the thread's own leader turned out to be older
    | Alone           // no dependency is left: the SCC was completed by its own thread
    | Delayed         // no dependency is left, but a suspension was resumed
    | CompletedSet    // the thread completed its SCC together with those of other threads
    | Blocked         // the thread waits
    | Aborted         // too many dependencies

  // ---------------------------------------------------------------- dependency lists

  ghost predicate Covers(tdl: seq<Dep>, s: Subgoal) {
    exists i :: 0 <= i < |tdl| && tdl[i].subgoal.tid == s.tid && s.pos <= tdl[i].subgoal.pos
  }

  ghost predicate Names(tdl: seq<Dep>, tid: Tid) {
    exists i :: 0 <= i < |tdl| && tdl[i].subgoal.tid == tid
  }

  ghost predicate OnePerThread(tdl: seq<Dep>) {
    forall i, j :: 0 <= i < j < |tdl| ==> tdl[i].subgoal.tid != tdl[j].subgoal.tid
  }

  ghost predicate TidsIn(tdl: seq<Dep>, tids: set<Tid>) {
    forall i :: 0 <= i < |tdl| ==> tdl[i].subgoal.tid in tids
  }

  /** The dependencies in `u` that `tdl` does not dominate yet: the termination measure of UpdateDeps. */
  ghost function Uncovered(tdl: seq<Dep>, u: set<Subgoal>): set<Subgoal> {
    set s | s in u && !Covers(tdl, s)
  }

  ghost function Subgoals(tdl: seq<Dep>): set<Subgoal> {
    set i | 0 <= i < |tdl| :: tdl[i].subgoal
  }

  /** `b` extends `a`: the same threads with the same `last` fields in front, each subgoal at least as old. */
  ghost predicate Grown(a: seq<Dep>, b: seq<Dep>) {
    && |a| <= |b|
    && forall i :: 0 <= i < |a| ==> b[i].subgoal.tid == a[i].subgoal.tid && b[i].last == a[i].last
  }

  function Answers(answers: map<Subgoal, nat>, s: Subgoal): nat {
    if s in answers then answers[s] else 0
  }

  predicate External(t: Tid, f: Frame) {
    f.subgoal.tid != t
  }

  // ---------------------------------------------------------------- what one critical section establishes

  /** No external consumer from the top of the stack down to `leader` has an unread answer. */
  ghost predicate AllRead(t: Tid, th: Thread, leader: int, answers: map<Subgoal, nat>) {
    forall i :: 0 <= i < |th.stack| && -i <= leader && th.stack[i].subgoal.tid != t ==>
      th.stack[i].read == if th.stack[i].subgoal in answers then answers[th.stack[i].subgoal] else 0
  }

  ghost predicate Direct(t: Tid, th: Thread, leader: int, done: set<Subgoal>, tdl: seq<Dep>) {
    forall i :: 0 <= i < |th.stack| && -i <= leader && th.stack[i].subgoal.tid != t && th.stack[i].subgoal !in done ==>
      Covers(tdl, th.stack[i].subgoal)
  }

  /** What a dependency that another thread recorded demands of `tdl` and of the leader. */
  ghost predicate Absorbed(t: Tid, x: Subgoal, done: set<Subgoal>, tdl: seq<Dep>, leader: int) {
    x !in done ==> if x.tid == t then x.pos <= leader else Covers(tdl, x)
  }

  ghost predicate AllAbsorbed(t: Tid, deps: seq<Dep>, done: set<Subgoal>, tdl: seq<Dep>, leader: int) {
    forall j :: 0 <= j < |deps| ==> Absorbed(t, deps[j].subgoal, done, tdl, leader)
  }

  /** Whatever the waiting threads named in `from` have recorded is dominated by `tdl` or by `leader`. */
  ghost predicate Closed(t: Tid, s: Sys, from: seq<Dep>, tdl: seq<Dep>, leader: int)
    requires TidsIn(from, s.threads.Keys)
  {
    forall i :: 0 <= i < |from| && s.threads[from[i].subgoal.tid].completing ==>
      AllAbsorbed(t, s.threads[from[i].subgoal.tid].tdl, s.done, tdl, leader)
  }

  function LastSeen(dep: Thread): int {
    if dep.completing then dep.lastAns else 0
  }

  ghost predicate LastsExact(s: Sys, tdl: seq<Dep>)
    requires TidsIn(tdl, s.threads.Keys)
  {
    forall i :: 0 <= i < |tdl| ==>
      var d := s.threads[tdl[i].subgoal.tid];
      tdl[i].last == if d.completing then d.lastAns else 0
  }

  ghost predicate SomeBusy(s: Sys, tdl: seq<Dep>)
    requires TidsIn(tdl, s.threads.Keys)
  {
    exists i :: 0 <= i < |tdl| && !s.threads[tdl[i].subgoal.tid].completing
  }

  ghost predicate WellFormedTdl(t: Tid, s: Sys, tdl: seq<Dep>) {
    && OnePerThread(tdl) && |tdl| < MaxThreadDeps
    && TidsIn(tdl, s.threads.Keys)
    && !Names(tdl, t)
    && (forall i :: 0 <= i < |tdl| ==> tdl[i].subgoal !in s.done)
  }

  /** A thread in the set has found answers later than some dependent of it in the set has recorded. */
  ghost predicate NewerAnswers(s: Sys, tdl: seq<Dep>)
    requires TidsIn(tdl, s.threads.Keys)
  {
    exists i, j :: 0 <= i < |tdl| && 0 <= j < |s.threads[tdl[i].subgoal.tid].tdl|
      && !UpToDate(s, s.threads[tdl[i].subgoal.tid].tdl[j])
  }

  ghost predicate UpToDate(s: Sys, e: Dep) {
    e.subgoal.tid in s.threads && s.threads[e.subgoal.tid].lastAns <= e.last
  }

  /** The dependency `e` of thread `t` passes the test that `t` and the threads it depends on form one SCC. */
  ghost predicate InSCC(t: Tid, s: Sys, tdl: seq<Dep>, e: Dep)
    requires e.subgoal.tid in s.threads
  {
    var d := s.threads[e.subgoal.tid];
    && e.subgoal.pos <= d.ccLeader
    && (forall j :: 0 <= j < |d.tdl| ==> d.tdl[j].subgoal.tid == t || Names(tdl, d.tdl[j].subgoal.tid))
    && (forall j :: 0 <= j < |tdl| ==> tdl[j].subgoal.tid == e.subgoal.tid || Names(d.tdl, tdl[j].subgoal.tid))
  }

  ghost predicate FormSCC(t: Tid, s: Sys, tdl: seq<Dep>)
    requires TidsIn(tdl, s.threads.Keys)
  {
    forall i :: 0 <= i < |tdl| ==> InSCC(t, s, tdl, tdl[i])
  }

  /** All threads that a frame or the list of a waiting thread names exist. */
  ghost predicate WellFormed(s: Sys) {
    forall t :: t in s.threads ==>
      && (forall i :: 0 <= i < |s.threads[t].stack| ==> s.threads[t].stack[i].subgoal.tid in s.threads)
      && (s.threads[t].completing ==> TidsIn(s.threads[t].tdl, s.threads.Keys))
      && (s.threads[t].completing ==> 0 <= -s.threads[t].ccLeader <= |s.threads[t].stack|)
  }

  /** All dependencies recorded anywhere. */
  ghost function AllDeps(s: Sys): set<Subgoal> {
    set t, i | t in s.threads && 0 <= i < |s.threads[t].tdl| :: s.threads[t].tdl[i].subgoal
  }

  // ---------------------------------------------------------------- what a thread depends on

  /** The incomplete subgoals of other threads that `t` reads between the top of its stack and `leader`. */
  ghost function DirectSet(s: Sys, t: Tid, leader: int): set<Subgoal>
    requires t in s.threads
  {
    var th := s.threads[t];
    set i | 0 <= i < |th.stack| && -i <= leader && th.stack[i].subgoal.tid != t && th.stack[i].subgoal !in s.done ::
      th.stack[i].subgoal
  }

  /** The thread of `y` waits, and has recorded the subgoal `x`, which is incomplete. */
  ghost predicate HandsOn(s: Sys, y: Subgoal, x: Subgoal) {
    && y.tid in s.threads && s.threads[y.tid].completing && x !in s.done
    && exists j :: 0 <= j < |s.threads[y.tid].tdl| && s.threads[y.tid].tdl[j].subgoal == x
  }

  ghost predicate NeedsIn(s: Sys, t: Tid, leader: int, x: Subgoal, n: nat)
    requires t in s.threads
    decreases n
  {
    if n == 0 then x in DirectSet(s, t, leader)
    else x.tid != t && exists y :: NeedsIn(s, t, leader, y, n - 1) && HandsOn(s, y, x)
  }

  /** `t` depends on the subgoal `x` of another thread: it reads it, or `x` has been recorded by a waiting thread on
      which `t` depends. */
  ghost predicate Needs(s: Sys, t: Tid, leader: int, x: Subgoal)
    requires t in s.threads
  {
    exists n: nat :: NeedsIn(s, t, leader, x, n)
  }

  ghost function NeededSet(s: Sys, t: Tid, leader: int): set<Subgoal>
    requires t in s.threads
  {
    set x | x in DirectSet(s, t, leader) + AllDeps(s) && Needs(s, t, leader, x)
  }

  lemma HandedOnRecorded(s: Sys, y: Subgoal, x: Subgoal)
    requires HandsOn(s, y, x)
    ensures x in AllDeps(s)
  {
  }

  lemma NeededIs(s: Sys, t: Tid, leader: int, x: Subgoal)
    requires t in s.threads
    ensures x in NeededSet(s, t, leader) <==> Needs(s, t, leader, x)
  {
    hide AllDeps, HandsOn;
    if Needs(s, t, leader, x) {
      var n: nat :| NeedsIn(s, t, leader, x, n);
      if n > 0 {
        var y :| NeedsIn(s, t, leader, y, n - 1) && HandsOn(s, y, x);
        HandedOnRecorded(s, y, x);
      }
    }
  }

  /** The subgoals `u` of threads other than `t` contain what waiting threads among theirs have recorded. */
  ghost predicate FollowedUp(t: Tid, s: Sys, u: set<Subgoal>) {
    && (forall x :: x in u ==> x.tid != t)
    && forall y, x :: y in u && HandsOn(s, y, x) && x.tid != t ==> x in u
  }

  /** A waiting thread with a subgoal in `u` has recorded the incomplete subgoal of `t` at address `pos`. */
  ghost predicate HeldAt(t: Tid, s: Sys, u: set<Subgoal>, pos: int) {
    exists y, x :: y in u && HandsOn(s, y, x) && x.tid == t && x.pos == pos
  }

  /** A thread on which `t` depends waits for a subgoal of `t` that is older than `leader`. */
  ghost predicate OlderLeader(s: Sys, t: Tid, leader: int)
    requires t in s.threads
  {
    exists y, x :: Needs(s, t, leader, y) && HandsOn(s, y, x) && x.tid == t && leader < x.pos
  }

  ghost function Tids(u: set<Subgoal>): set<Tid> {
    set x | x in u :: x.tid
  }

  /** More threads than a dependency list has room for. */
  ghost predicate Overfull(u: set<Subgoal>) {
    |Tids(u)| >= MaxThreadDeps
  }

  lemma DirectFacts(s: Sys, t: Tid, leader: int)
    requires t in s.threads
    ensures DirectSet(s, t, leader) <= NeededSet(s, t, leader)
    ensures forall i ::
              0 <= i < |s.threads[t].stack| && -i <= leader && s.threads[t].stack[i].subgoal.tid != t &&
              s.threads[t].stack[i].subgoal !in s.done ==>
                s.threads[t].stack[i].subgoal in DirectSet(s, t, leader)
  {
    forall x | x in DirectSet(s, t, leader)
      ensures x in NeededSet(s, t, leader)
    {
      assert NeedsIn(s, t, leader, x, 0);
      NeededIs(s, t, leader, x);
    }
  }

  lemma NeededNext(s: Sys, t: Tid, leader: int, y: Subgoal, x: Subgoal)
    requires t in s.threads && Needs(s, t, leader, y) && HandsOn(s, y, x) && x.tid != t
    ensures Needs(s, t, leader, x)
  {
    var n: nat :| NeedsIn(s, t, leader, y, n);
    assert NeedsIn(s, t, leader, x, n + 1);
  }

  lemma NeededFollowedUp(s: Sys, t: Tid, leader: int)
    requires t in s.threads
    ensures FollowedUp(t, s, NeededSet(s, t, leader))
  {
    hide NeededSet, HandsOn, DirectSet;
    var u := NeededSet(s, t, leader);
    forall x | x in u
      ensures x.tid != t
    {
      NeededIs(s, t, leader, x);
      var n: nat :| NeedsIn(s, t, leader, x, n);
      if n == 0 { DirectOther(s, t, leader, x); }
    }
    forall y, x | y in u && HandsOn(s, y, x) && x.tid != t
      ensures x in u
    {
      NeededIs(s, t, leader, y);
      NeededNext(s, t, leader, y, x);
      NeededIs(s, t, leader, x);
    }
  }

  lemma DirectOther(s: Sys, t: Tid, leader: int, x: Subgoal)
    requires t in s.threads && x in DirectSet(s, t, leader)
    ensures x.tid != t && x !in s.done
  {
  }

  /** What holds of the new list `tdl` once the entries `cur` have been visited. */
  ghost predicate Visited(t: Tid, s: Sys, cur: seq<Dep>, tdl: seq<Dep>, leader: int, busy: bool) {
    && TidsIn(cur, s.threads.Keys)
    && (forall k :: 0 <= k < |cur| ==> Covers(tdl, cur[k].subgoal))
    && Closed(t, s, cur, tdl, leader)
    && (forall i :: 0 <= i < |tdl| && Names(cur, tdl[i].subgoal.tid) ==>
          tdl[i].subgoal.tid in s.threads && tdl[i].last == LastSeen(s.threads[tdl[i].subgoal.tid]))
    && (SomeBusy(s, cur) ==> busy)
  }

  lemma SameSubgoals(a: seq<Dep>, b: seq<Dep>)
    requires |a| == |b| && forall i :: 0 <= i < |a| ==> a[i].subgoal == b[i].subgoal
    ensures forall x :: Covers(a, x) <==> Covers(b, x)
    ensures forall tid :: Names(a, tid) <==> Names(b, tid)
    ensures forall u :: Uncovered(a, u) == Uncovered(b, u)
    ensures Subgoals(a) == Subgoals(b)
  {
    forall x | Covers(a, x)
      ensures Covers(b, x)
    {
      var i :| 0 <= i < |a| && a[i].subgoal.tid == x.tid && x.pos <= a[i].subgoal.pos;
      assert b[i].subgoal == a[i].subgoal;
    }
    forall x | Covers(b, x)
      ensures Covers(a, x)
    {
      var i :| 0 <= i < |b| && b[i].subgoal.tid == x.tid && x.pos <= b[i].subgoal.pos;
      assert a[i].subgoal == b[i].subgoal;
    }
    forall tid
      ensures Names(a, tid) <==> Names(b, tid)
    {
      if i :| 0 <= i < |a| && a[i].subgoal.tid == tid { assert b[i].subgoal.tid == tid; }
      if i :| 0 <= i < |b| && b[i].subgoal.tid == tid { assert a[i].subgoal.tid == tid; }
    }
    assert forall i :: 0 <= i < |a| ==> a[i].subgoal in Subgoals(b) && b[i].subgoal in Subgoals(a);
  }

  lemma CoversAll(a: seq<Dep>, b: seq<Dep>)
    requires forall i :: 0 <= i < |a| ==> Covers(b, a[i].subgoal)
    ensures forall x :: Covers(a, x) ==> Covers(b, x)
  {
    forall x | Covers(a, x)
      ensures Covers(b, x)
    {
      var i :| 0 <= i < |a| && a[i].subgoal.tid == x.tid && x.pos <= a[i].subgoal.pos;
      assert Covers(b, a[i].subgoal);
    }
  }

  lemma VisitedStep(t: Tid, s: Sys, cur: seq<Dep>, j: nat,
                    tdl: seq<Dep>, leader: int, busy: bool, tdl2: seq<Dep>, leader2: int, busy2: bool)
    requires j < |cur| && TidsIn(cur, s.threads.Keys)
    requires Visited(t, s, cur[..j], tdl, leader, busy)
    requires forall x :: Covers(tdl, x) ==> Covers(tdl2, x)
    requires leader <= leader2 && |tdl| <= |tdl2|
    requires Covers(tdl2, cur[j].subgoal)
    requires var d := s.threads[cur[j].subgoal.tid];
             && (d.completing ==> AllAbsorbed(t, d.tdl, s.done, tdl2, leader2))
             && (forall i :: 0 <= i < |tdl2| && tdl2[i].subgoal.tid == cur[j].subgoal.tid ==>
                 tdl2[i].last == LastSeen(d))
             && (busy2 <==> busy || !d.completing)
    requires forall i :: 0 <= i < |tdl| ==>
               && tdl2[i].subgoal.tid == tdl[i].subgoal.tid
               && (tdl[i].subgoal.tid != cur[j].subgoal.tid ==> tdl2[i].last == tdl[i].last)
    requires forall i :: |tdl| <= i < |tdl2| && tdl2[i].subgoal.tid != cur[j].subgoal.tid ==>
               !Names(cur[..j], tdl2[i].subgoal.tid)
    ensures Visited(t, s, cur[..j + 1], tdl2, leader2, busy2)
  {
    var c, c' := cur[..j], cur[..j + 1];
    assert forall k :: 0 <= k < |c| ==> c'[k] == c[k];
    forall i | 0 <= i < |tdl2| && Names(c', tdl2[i].subgoal.tid)
      ensures tdl2[i].last == LastSeen(s.threads[tdl2[i].subgoal.tid])
    {
      if tdl2[i].subgoal.tid != cur[j].subgoal.tid {
        var k :| 0 <= k < |c'| && c'[k].subgoal.tid == tdl2[i].subgoal.tid;
        assert k < j && c[k].subgoal.tid == tdl2[i].subgoal.tid;
        assert Names(c, tdl2[i].subgoal.tid);
        assert i < |tdl|;
      }
    }
  }

  ghost predicate Settled(t: Tid, s: Sys, tdl: seq<Dep>, leader: int, busy: bool)
    requires TidsIn(tdl, s.threads.Keys)
  {
    Closed(t, s, tdl, tdl, leader) && LastsExact(s, tdl) && (busy <==> SomeBusy(s, tdl))
  }

  /** A pass that recorded nothing new leaves a settled list. */
  lemma LastPass(t: Tid, s: Sys, s2: Sys, cur: seq<Dep>, tdl: seq<Dep>, leader: int, busy: bool)
    requires t in s.threads && t in s2.threads && OnlyThread(s, t, s.threads[t].(tdl := cur), s2)
    requires WellFormedTdl(t, s, cur) && WellFormedTdl(t, s, tdl)
    requires Visited(t, s2, cur, tdl, leader, busy) && (busy ==> SomeBusy(s2, tdl))
    requires forall i :: 0 <= i < |tdl| ==> Names(cur, tdl[i].subgoal.tid)
    ensures Settled(t, s, tdl, leader, busy)
  {
    forall i | 0 <= i < |tdl|
      ensures var d := s.threads[tdl[i].subgoal.tid];
              && s2.threads[tdl[i].subgoal.tid] == d
              && tdl[i].last == LastSeen(d)
              && (d.completing ==> AllAbsorbed(t, d.tdl, s.done, tdl, leader))
              && (!d.completing ==> busy)
    {
      var k :| 0 <= k < |cur| && cur[k].subgoal.tid == tdl[i].subgoal.tid;
      assert s2.threads[cur[k].subgoal.tid] == s.threads[tdl[i].subgoal.tid];
    }
    assert SomeBusy(s2, tdl) <==> SomeBusy(s, tdl);
  }

  /** In the middle of one pass, when `j` entries of the list have been visited; `start` is the list it extends. */
  ghost predicate Passing(t: Tid, s: Sys, u: set<Subgoal>, start: seq<Dep>, leader: int, j: nat,
                          tdl: seq<Dep>, leader2: int, busy2: bool, newDeps: bool, ok: bool) {
    && t in s.threads && j <= |s.threads[t].tdl| && WellFormed(s) && FollowedUp(t, s, u) &&
       WellFormedTdl(t, s, s.threads[t].tdl) && Subgoals(s.threads[t].tdl) <= u
    && WellFormedTdl(t, s, tdl) && Subgoals(tdl) <= u
    && leader <= leader2 && (leader2 == leader || HeldAt(t, s, u, leader2))
    && Uncovered(tdl, u) <= Uncovered(start, u) && (newDeps ==> Uncovered(tdl, u) < Uncovered(start, u))
    && (ok ==> Visited(t, s, s.threads[t].tdl[..j], tdl, leader2, busy2) && (busy2 ==> SomeBusy(s, tdl)))
    && (ok && !newDeps ==> forall i :: 0 <= i < |tdl| ==> Names(s.threads[t].tdl, tdl[i].subgoal.tid))
    && (!ok ==> Overfull(u))
  }

  lemma StartTids(t: Tid, s: Sys, start: seq<Dep>)
    requires t in s.threads && WellFormedTdl(t, s, s.threads[t].tdl) && (start == [] || start == s.threads[t].tdl)
    ensures TidsIn(start, s.threads.Keys)
  {
  }

  lemma PassStarts(t: Tid, s: Sys, start: seq<Dep>, leader: int, busy: bool, u: set<Subgoal>)
    requires t in s.threads && WellFormed(s) && FollowedUp(t, s, u) && WellFormedTdl(t, s, s.threads[t].tdl)
    requires Subgoals(s.threads[t].tdl) <= u
    requires start == [] || start == s.threads[t].tdl
    requires busy ==> TidsIn(start, s.threads.Keys) && SomeBusy(s, start)
    ensures Passing(t, s, u, start, leader, 0, start, leader, busy, false, true)
  {
  }

  lemma PassEntry(t: Tid, s: Sys, u: set<Subgoal>, start: seq<Dep>, leader: int, j: nat, tdl: seq<Dep>, leader2: int,
                  busy2: bool, newDeps: bool)
    requires Passing(t, s, u, start, leader, j, tdl, leader2, busy2, newDeps, true) && j < |s.threads[t].tdl|
    ensures WellFormedTdl(t, s, tdl) && Subgoals(tdl) <= u && FollowedUp(t, s, u)
    ensures var e := s.threads[t].tdl[j].subgoal; e.tid in s.threads && e.tid != t && e !in s.done && e in u
  {
    assert s.threads[t].tdl[j].subgoal in Subgoals(s.threads[t].tdl);
  }

  lemma PassStep(t: Tid, s: Sys, u: set<Subgoal>, start: seq<Dep>, leader: int, j: nat,
                 tdl: seq<Dep>, leader1: int, busy1: bool, newDeps1: bool,
                 tdl2: seq<Dep>, leader2: int, busy2: bool, newDeps2: bool, ok: bool)
    requires Passing(t, s, u, start, leader, j, tdl, leader1, busy1, newDeps1, true) && j < |s.threads[t].tdl|
    requires WellFormedTdl(t, s, tdl2) && forall x :: Covers(tdl, x) ==> Covers(tdl2, x)
    requires leader1 <= leader2 && (leader2 == leader1 || HeldAt(t, s, u, leader2)) && (newDeps1 ==> newDeps2)
    requires Uncovered(tdl2, u) <= Uncovered(tdl, u) &&
             (newDeps2 && !newDeps1 ==> Uncovered(tdl2, u) < Uncovered(tdl, u))
    requires Subgoals(tdl2) <= u && |tdl| <= |tdl2|
    requires var e := s.threads[t].tdl[j].subgoal;
             && e.tid in s.threads && (ok ==> Covers(tdl2, e))
             && (ok && s.threads[e.tid].completing ==> AllAbsorbed(t, s.threads[e.tid].tdl, s.done, tdl2, leader2))
             && (ok ==> forall i :: 0 <= i < |tdl2| && tdl2[i].subgoal.tid == e.tid ==>
                 tdl2[i].last == LastSeen(s.threads[e.tid]))
             && (forall i :: 0 <= i < |tdl| ==>
                   tdl2[i].subgoal.tid == tdl[i].subgoal.tid &&
                   (tdl[i].subgoal.tid != e.tid ==> tdl2[i].last == tdl[i].last))
             && (ok && !newDeps2 ==> forall i :: 0 <= i < |tdl2| ==>
                 Names(tdl, tdl2[i].subgoal.tid) || tdl2[i].subgoal.tid == e.tid)
             && (ok ==> (busy2 <==> busy1 || !s.threads[e.tid].completing))
    requires !ok ==> Overfull(u)
    ensures Passing(t, s, u, start, leader, if ok then j + 1 else j, tdl2, leader2, busy2, newDeps2, ok)
  {
    hide WellFormed, FollowedUp, HeldAt, Uncovered, Overfull, AllAbsorbed;
    if ok {
      var cur := s.threads[t].tdl;
      NewBehind(t, s, cur, j, tdl, leader1, busy1, tdl2);
      if busy2 { StillBusy(s, tdl, tdl2, cur[j].subgoal, busy1); }
      VisitedStep(t, s, cur, j, tdl, leader1, busy1, tdl2, leader2, busy2);
      if !newDeps2 { StillNamed(cur, j, tdl, tdl2); }
    }
  }

  /** The entries added are of threads that no entry visited so far names. */
  lemma NewBehind(t: Tid, s: Sys, cur: seq<Dep>, j: nat, tdl: seq<Dep>, leader: int, busy: bool, tdl2: seq<Dep>)
    requires j <= |cur| && TidsIn(cur, s.threads.Keys) && Visited(t, s, cur[..j], tdl, leader, busy)
    requires OnePerThread(tdl2) && |tdl| <= |tdl2| && forall i :: 0 <= i < |tdl| ==>
               tdl2[i].subgoal.tid == tdl[i].subgoal.tid
    ensures forall i :: |tdl| <= i < |tdl2| ==> !Names(cur[..j], tdl2[i].subgoal.tid)
  {
    hide Closed, SomeBusy;
  }

  lemma StillBusy(s: Sys, tdl: seq<Dep>, tdl2: seq<Dep>, e: Subgoal, busy: bool)
    requires TidsIn(tdl, s.threads.Keys) && TidsIn(tdl2, s.threads.Keys) && |tdl| <= |tdl2|
    requires forall i :: 0 <= i < |tdl| ==> tdl2[i].subgoal.tid == tdl[i].subgoal.tid
    requires e.tid in s.threads && Covers(tdl2, e) && (busy ==> SomeBusy(s, tdl)) &&
               (busy || !s.threads[e.tid].completing)
    ensures SomeBusy(s, tdl2)
  {
    if busy {
      var k :| 0 <= k < |tdl| && !s.threads[tdl[k].subgoal.tid].completing;
      assert !s.threads[tdl2[k].subgoal.tid].completing;
    } else {
      var k :| 0 <= k < |tdl2| && tdl2[k].subgoal.tid == e.tid;
      assert !s.threads[tdl2[k].subgoal.tid].completing;
    }
  }

  lemma StillNamed(cur: seq<Dep>, j: nat, tdl: seq<Dep>, tdl2: seq<Dep>)
    requires j < |cur| && forall i :: 0 <= i < |tdl| ==> Names(cur, tdl[i].subgoal.tid)
    requires forall i ::
               0 <= i < |tdl2| ==> Names(tdl, tdl2[i].subgoal.tid) || tdl2[i].subgoal.tid == cur[j].subgoal.tid
    ensures forall i :: 0 <= i < |tdl2| ==> Names(cur, tdl2[i].subgoal.tid)
  {
    forall i | 0 <= i < |tdl2|
      ensures Names(cur, tdl2[i].subgoal.tid)
    {
      if Names(tdl, tdl2[i].subgoal.tid) {
        var k :| 0 <= k < |tdl| && tdl[k].subgoal.tid == tdl2[i].subgoal.tid;
        assert Names(cur, tdl[k].subgoal.tid);
      }
    }
  }

  lemma PassEnds(t: Tid, s: Sys, u: set<Subgoal>, start: seq<Dep>, leader: int, j: nat, tdl: seq<Dep>, leader2: int,
                 busy2: bool, newDeps: bool, ok: bool)
    requires Passing(t, s, u, start, leader, j, tdl, leader2, busy2, newDeps, ok) && (ok ==> j >= |s.threads[t].tdl|)
    ensures WellFormedTdl(t, s, tdl) && Subgoals(tdl) <= u
    ensures leader <= leader2 && (leader2 == leader || HeldAt(t, s, u, leader2))
    ensures Uncovered(tdl, u) <= Uncovered(start, u) && (newDeps ==> Uncovered(tdl, u) < Uncovered(start, u))
    ensures ok ==>
              Visited(t, s, s.threads[t].tdl, tdl, leader2, busy2) && TidsIn(tdl, s.threads.Keys) &&
              (busy2 ==> SomeBusy(s, tdl))
    ensures ok && !newDeps ==> forall i :: 0 <= i < |tdl| ==> Names(s.threads[t].tdl, tdl[i].subgoal.tid)
    ensures !ok ==> Overfull(u)
  {
    hide WellFormed, FollowedUp, HeldAt, Uncovered, Overfull, Visited, SomeBusy, Names, Subgoals;
    if ok { assert s.threads[t].tdl[..j] == s.threads[t].tdl; }
  }

  /** The state of UpdateDeps between two passes; `s` is the state at its start. */
  ghost predicate Updating(t: Tid, s: Sys, u: set<Subgoal>, now: Sys, newTdl: seq<Dep>, leader: int, leader2: int,
                           busy: bool, newDeps: bool, ok: bool) {
    && t in s.threads && t in now.threads && OnlyThread(s, t, s.threads[t].(tdl := now.threads[t].tdl), now)
    && var tdl := now.threads[t].tdl;
       && WellFormed(s) && WellFormedTdl(t, s, tdl) && Subgoals(tdl) <= u && FollowedUp(t, s, u)
       && (newTdl == [] || newTdl == tdl)
       && leader <= leader2 && (leader2 == leader || HeldAt(t, s, u, leader2))
       && (ok ==> forall x :: Covers(s.threads[t].tdl, x) ==> Covers(tdl, x))
       && (ok && busy ==> SomeBusy(s, newTdl))
       && (ok && !newDeps ==> newTdl == tdl && Settled(t, s, newTdl, leader2, busy))
       && (!ok ==> Overfull(u))
  }

  lemma StartUpdating(t: Tid, s: Sys, u: set<Subgoal>, leader: int)
    requires t in s.threads && WellFormed(s) && WellFormedTdl(t, s, s.threads[t].tdl)
    requires FollowedUp(t, s, u) && Subgoals(s.threads[t].tdl) <= u
    ensures Updating(t, s, u, s, [], leader, leader, false, true, true)
  {
  }

  lemma UpdatingPass(t: Tid, s: Sys, u: set<Subgoal>, now: Sys, newTdl: seq<Dep>, leader: int, leader2: int,
                     busy: bool, newDeps: bool)
    requires Updating(t, s, u, now, newTdl, leader, leader2, busy, newDeps, true)
    ensures t in now.threads && WellFormed(now) && FollowedUp(t, now, u) &&
            WellFormedTdl(t, now, now.threads[t].tdl) && Subgoals(now.threads[t].tdl) <= u
    ensures WellFormed(s)
    ensures newTdl == [] || newTdl == now.threads[t].tdl
    ensures TidsIn(newTdl, now.threads.Keys) && (busy ==> SomeBusy(now, newTdl))
  {
    OthersKept(s, t, u, now);
    if busy {
      var i :| 0 <= i < |newTdl| && !s.threads[newTdl[i].subgoal.tid].completing;
      assert !now.threads[newTdl[i].subgoal.tid].completing;
    }
  }

  lemma VisitedCovers(t: Tid, s: Sys, cur: seq<Dep>, tdl: seq<Dep>, leader: int, busy: bool)
    requires Visited(t, s, cur, tdl, leader, busy)
    ensures forall k :: 0 <= k < |cur| ==> Covers(tdl, cur[k].subgoal)
  {
    hide Covers, Closed, SomeBusy;
  }

  /** One pass over the list has been made. */
  lemma UpdatedPass(t: Tid, s: Sys, u: set<Subgoal>, mid: Sys, leader: int, leader1: int, newTdl: seq<Dep>,
                    leader2: int, busy: bool, newDeps: bool, ok: bool, from: seq<Dep>, busy1: bool, newDeps1: bool,
                    now: Sys)
    requires Updating(t, s, u, mid, from, leader, leader1, busy1, newDeps1, true)
    requires WellFormedTdl(t, mid, newTdl) && Subgoals(newTdl) <= u
    requires leader1 <= leader2 && (leader2 == leader1 || HeldAt(t, mid, u, leader2))
    requires ok ==> Visited(t, mid, mid.threads[t].tdl, newTdl, leader2, busy) && (busy ==> SomeBusy(mid, newTdl))
    requires ok && !newDeps ==> forall i :: 0 <= i < |newTdl| ==> Names(mid.threads[t].tdl, newTdl[i].subgoal.tid)
    requires !ok ==> Overfull(u)
    requires OnlyThread(mid, t, mid.threads[t].(tdl := newTdl), now)
    ensures Updating(t, s, u, now, newTdl, leader, leader2, busy, newDeps, ok)
  {
    hide Visited, Settled, WellFormed, WellFormedTdl, FollowedUp, Subgoals, HeldAt, OnlyThread, SomeBusy, Covers,
        Names, Overfull;
    hide OnePerThread, TidsIn;
    SameThreads(t, s, u, mid, now, newTdl, leader2);
    if ok {
      var cur := mid.threads[t].tdl;
      VisitedCovers(t, mid, cur, newTdl, leader2, busy);
      CoversAll(cur, newTdl);
      if !newDeps { LastPass(t, s, mid, cur, newTdl, leader2, busy); }
    }
  }

  /** The state in the middle, that before and that after it differ in the list of thread `t` only. */
  lemma SameThreads(t: Tid, s: Sys, u: set<Subgoal>, mid: Sys, now: Sys, tdl: seq<Dep>, leader: int)
    requires WellFormed(s) && t in s.threads && t in mid.threads && WellFormedTdl(t, s, mid.threads[t].tdl)
    requires OnlyThread(s, t, s.threads[t].(tdl := mid.threads[t].tdl), mid) && FollowedUp(t, s, u)
    requires WellFormedTdl(t, mid, tdl) && OnlyThread(mid, t, mid.threads[t].(tdl := tdl), now)
    ensures t in now.threads && now.threads[t].tdl == tdl && OnlyThread(s, t, s.threads[t].(tdl := tdl), now)
    ensures WellFormedTdl(t, s, tdl) && WellFormedTdl(t, s, mid.threads[t].tdl)
    ensures TidsIn(tdl, s.threads.Keys) && TidsIn(tdl, mid.threads.Keys) && TidsIn(mid.threads[t].tdl, s.threads.Keys)
    ensures HeldAt(t, mid, u, leader) ==> HeldAt(t, s, u, leader)
    ensures SomeBusy(mid, tdl) ==> SomeBusy(s, tdl)
  {
    OthersKept(s, t, u, mid);
    assert now.threads == s.threads[t := s.threads[t].(tdl := tdl)];
    if SomeBusy(mid, tdl) {
      var i :| 0 <= i < |tdl| && !mid.threads[tdl[i].subgoal.tid].completing;
      assert !s.threads[tdl[i].subgoal.tid].completing;
    }
  }

  lemma UpdatingEnds(t: Tid, s: Sys, u: set<Subgoal>, now: Sys, newTdl: seq<Dep>, leader: int, leader2: int,
                     busy: bool, newDeps: bool, ok: bool)
    requires Updating(t, s, u, now, newTdl, leader, leader2, busy, newDeps, ok) && (ok ==> !newDeps)
    ensures t in now.threads && t in s.threads && OnlyThread(s, t, s.threads[t].(tdl := now.threads[t].tdl), now)
    ensures WellFormedTdl(t, s, now.threads[t].tdl)
    ensures leader <= leader2 && (leader2 == leader || HeldAt(t, s, u, leader2))
    ensures ok ==> forall x :: Covers(s.threads[t].tdl, x) ==> Covers(now.threads[t].tdl, x)
    ensures ok ==> Closed(t, s, now.threads[t].tdl, now.threads[t].tdl, leader2)
    ensures ok ==> LastsExact(s, now.threads[t].tdl)
    ensures ok ==> (busy <==> SomeBusy(s, now.threads[t].tdl))
    ensures Subgoals(now.threads[t].tdl) <= u
    ensures !ok ==> Overfull(u)
  {
  }

  lemma OthersKept(s: Sys, t: Tid, u: set<Subgoal>, s2: Sys)
    requires WellFormed(s) && t in s.threads && t in s2.threads && FollowedUp(t, s, u)
    requires OnlyThread(s, t, s.threads[t].(tdl := s2.threads[t].tdl), s2)
    requires WellFormedTdl(t, s, s2.threads[t].tdl)
    ensures WellFormed(s2) && FollowedUp(t, s2, u)
    ensures forall y, x :: y in u ==> (HandsOn(s, y, x) <==> HandsOn(s2, y, x))
  {
    forall y, x | y in u
      ensures HandsOn(s, y, x) <==> HandsOn(s2, y, x)
    {
      SameHandsOn(s, t, s2, y, x);
    }
  }

  lemma SameHandsOn(s: Sys, t: Tid, s2: Sys, y: Subgoal, x: Subgoal)
    requires t in s.threads && t in s2.threads && s2.threads == s.threads[t := s2.threads[t]] && s2.done == s.done
    requires y.tid != t
    ensures HandsOn(s, y, x) <==> HandsOn(s2, y, x)
  {
  }

  // ---------------------------------------------------------------- too many threads

  ghost function TidsOf(tdl: seq<Dep>): set<Tid> {
    set i | 0 <= i < |tdl| :: tdl[i].subgoal.tid
  }

  lemma {:induction false} TidsCounted(tdl: seq<Dep>)
    requires OnePerThread(tdl)
    ensures |TidsOf(tdl)| == |tdl|
    decreases |tdl|
  {
    if tdl != [] {
      var n := |tdl| - 1;
      var rest, tid := tdl[..n], tdl[n].subgoal.tid;
      TidsCounted(rest);
      assert forall i :: 0 <= i < n ==> rest[i] == tdl[i];
      assert tid !in TidsOf(rest);
      forall x
        ensures x in TidsOf(tdl) <==> x in TidsOf(rest) + {tid}
      {
        if x in TidsOf(rest) {
          var i :| 0 <= i < n && rest[i].subgoal.tid == x;
          assert tdl[i].subgoal.tid == x;
        }
        assert tdl[n].subgoal.tid == tid;
        if x in TidsOf(tdl) && x != tid {
          var i :| 0 <= i < |tdl| && tdl[i].subgoal.tid == x;
          assert rest[i].subgoal.tid == x;
        }
      }
      assert TidsOf(tdl) == TidsOf(rest) + {tid};
    }
  }

  /** A list changed by recording `x`. */
  lemma SubgoalsGrow(tdl: seq<Dep>, tdl2: seq<Dep>, x: Subgoal)
    requires |tdl| <= |tdl2|
    requires forall i :: 0 <= i < |tdl| ==> tdl2[i].subgoal == tdl[i].subgoal || tdl2[i].subgoal == x
    requires forall i :: |tdl| <= i < |tdl2| ==> tdl2[i].subgoal == x
    ensures Subgoals(tdl2) <= Subgoals(tdl) + {x}
  {
    forall y | y in Subgoals(tdl2)
      ensures y in Subgoals(tdl) + {x}
    {
      var i :| 0 <= i < |tdl2| && tdl2[i].subgoal == y;
      if i < |tdl| && y != x { assert tdl[i].subgoal in Subgoals(tdl); }
    }
  }

  /** The list overflows only if there are more than 255 threads among those of `u`. */
  lemma OverflowIsOverfull(tdl: seq<Dep>, u: set<Subgoal>, x: Subgoal)
    requires OnePerThread(tdl) && Subgoals(tdl) <= u && x in u && !Names(tdl, x.tid) && |tdl| == MaxThreadDeps - 1
    ensures Overfull(u)
  {
    TidsCounted(tdl);
    var named := TidsOf(tdl) + {x.tid};
    forall m | m in named
      ensures m in Tids(u)
    {
      if m != x.tid {
        var i :| 0 <= i < |tdl| && tdl[i].subgoal.tid == m;
        assert tdl[i].subgoal in Subgoals(tdl);
      }
    }
    assert x.tid !in TidsOf(tdl) && |named| == |tdl| + 1;
    NoMore(named, Tids(u));
  }

  lemma NoMore(a: set<Tid>, b: set<Tid>)
    requires a <= b
    ensures |a| <= |b|
  {
    assert b == a + (b - a);
  }

  /** A list with an entry for each thread of `u` says that there are not too many. */
  lemma RoomForAll(t: Tid, s: Sys, tdl: seq<Dep>, u: set<Subgoal>)
    requires WellFormedTdl(t, s, tdl) && forall x :: x in u ==> Names(tdl, x.tid)
    ensures !Overfull(u)
  {
    TidsCounted(tdl);
    forall m | m in Tids(u)
      ensures m in TidsOf(tdl)
    {
    }
    NoMore(Tids(u), TidsOf(tdl));
  }

  // ---------------------------------------------------------------- completing stacks

  ghost function FramesFrom(th: Thread, leader: int): set<Subgoal> {
    set i | 0 <= i < |th.stack| && -i <= leader :: th.stack[i].subgoal
  }

  // The frames older than the leader's stay.
  function Popped(th: Thread, leader: int): (r: Thread)
    ensures r == th.(stack := r.stack) && r.stack <= th.stack
    ensures 0 <= -leader <= |th.stack| ==> |r.stack| == -leader
  {
    if 0 <= -leader <= |th.stack| then th.(stack := th.stack[..-leader]) else th
  }

  ghost predicate Member(t: Tid, tdl: seq<Dep>, m: Tid) {
    m == t || Names(tdl, m)
  }

  ghost function LeaderOf(s: Sys, t: Tid, leader: int, m: Tid): int
    requires m in s.threads
  {
    if m == t then leader else s.threads[m].ccLeader
  }

  /** `s2` is `s` with the stacks of all members completed down to their leaders. */
  ghost predicate SetCompleted(s: Sys, t: Tid, leader: int, tdl: seq<Dep>, s2: Sys)
    requires t in s.threads && TidsIn(tdl, s.threads.Keys)
  {
    && s2.threads.Keys == s.threads.Keys
    && s2.answers == s.answers
    && s2.threads[t] == Popped(s.threads[t].(tdl := tdl, completing := false), leader)
    && (forall m :: m in s.threads && m != t ==>
          s2.threads[m] ==
            if Names(tdl, m) then Popped(s.threads[m], s.threads[m].ccLeader).(completed := true)
            else s.threads[m])
    && (forall x :: x in s2.done <==>
          x in s.done
          || exists m :: m in s.threads && Member(t, tdl, m)
                         && x in FramesFrom(s.threads[m], LeaderOf(s, t, leader, m)))
  }

  /** `s2` is `s` with the stacks of the threads named in `tdl` completed down to their leaders. */
  ghost predicate OthersCompleted(s: Sys, tdl: seq<Dep>, s2: Sys) {
    && s2.threads.Keys == s.threads.Keys
    && s2.answers == s.answers
    && (forall m :: m in s.threads ==>
          s2.threads[m] ==
            if Names(tdl, m) then Popped(s.threads[m], s.threads[m].ccLeader).(completed := true)
            else s.threads[m])
    && (forall x :: x in s2.done <==>
          x in s.done
          || exists m :: m in s.threads && Names(tdl, m) && x in FramesFrom(s.threads[m], s.threads[m].ccLeader))
  }

  lemma FramesFromNext(th: Thread, leader: int, i: nat)
    requires 0 < i <= |th.stack| && -leader <= i - 1
    ensures FramesFrom(th.(stack := th.stack[..i]), leader)
         == FramesFrom(th.(stack := th.stack[..i - 1]), leader) + {th.stack[i - 1].subgoal}
  {
    var a, b := th.stack[..i - 1], th.stack[..i];
    assert forall k :: 0 <= k < |a| ==> b[k] == a[k];
    assert b[i - 1].subgoal in FramesFrom(th.(stack := b), leader);
    forall x | x in FramesFrom(th.(stack := a), leader)
      ensures x in FramesFrom(th.(stack := b), leader)
    {
      var k :| 0 <= k < |a| && -k <= leader && a[k].subgoal == x;
      assert b[k].subgoal == x;
    }
  }

  /** The tests on the other threads read nothing that the survey of thread `t` changes. */
  lemma SameView(s: Sys, s2: Sys, t: Tid, tdl: seq<Dep>)
    requires t in s.threads && t in s2.threads && TidsIn(tdl, s.threads.Keys) && !Names(tdl, t)
    requires s2.threads == s.threads[t := s2.threads[t]] && s2.threads[t].lastAns == s.threads[t].lastAns
    ensures NewerAnswers(s, tdl) <==> NewerAnswers(s2, tdl)
    ensures FormSCC(t, s, tdl) <==> FormSCC(t, s2, tdl)
    ensures SomeBusy(s, tdl) <==> SomeBusy(s2, tdl)
  {
    assert forall i :: 0 <= i < |tdl| ==> s2.threads[tdl[i].subgoal.tid] == s.threads[tdl[i].subgoal.tid];
    assert forall e :: UpToDate(s, e) <==> UpToDate(s2, e);
    if NewerAnswers(s, tdl) {
      var i, j :| 0 <= i < |tdl| && 0 <= j < |s.threads[tdl[i].subgoal.tid].tdl|
        && !UpToDate(s, s.threads[tdl[i].subgoal.tid].tdl[j]);
      assert !UpToDate(s2, s2.threads[tdl[i].subgoal.tid].tdl[j]);
    }
    if NewerAnswers(s2, tdl) {
      var i, j :| 0 <= i < |tdl| && 0 <= j < |s2.threads[tdl[i].subgoal.tid].tdl|
        && !UpToDate(s2, s2.threads[tdl[i].subgoal.tid].tdl[j]);
      assert !UpToDate(s, s.threads[tdl[i].subgoal.tid].tdl[j]);
    }
    assert forall i :: 0 <= i < |tdl| ==> (InSCC(t, s, tdl, tdl[i]) <==> InSCC(t, s2, tdl, tdl[i]));
  }

  lemma StillClosed(s: Sys, s2: Sys, t: Tid, tdl: seq<Dep>, leader: int)
    requires t in s.threads && t in s2.threads && TidsIn(tdl, s.threads.Keys) && !Names(tdl, t)
    requires s2.threads == s.threads[t := s2.threads[t]] && s2.done == s.done
    requires Closed(t, s2, tdl, tdl, leader) && LastsExact(s2, tdl)
    ensures Closed(t, s, tdl, tdl, leader) && LastsExact(s, tdl)
  {
    assert forall i :: 0 <= i < |tdl| ==> s2.threads[tdl[i].subgoal.tid] == s.threads[tdl[i].subgoal.tid];
  }

  lemma CheckFacts(s: Sys, t: Tid, leader: int)
    requires AtCheck(s, t, leader)
    ensures t in s.threads && 0 <= -leader < |s.threads[t].stack|
  {
  }

  lemma StillWellFormed(s: Sys, t: Tid, s1: Sys)
    requires WellFormed(s) && t in s.threads && OnlyThread(s, t, s.threads[t].(completing := false), s1)
    ensures t in s1.threads && WellFormed(s1) && s1.threads[t].stack == s.threads[t].stack
  {
  }

  /** After the search for unread answers, which records the dependencies afresh. */
  lemma SurveyStarts(s: Sys, t: Tid, leader: int, s1: Sys, mid: Sys)
    requires WellFormed(s) && t in s.threads && OnlyThread(s, t, s.threads[t].(completing := false), s1)
    requires t in s1.threads && t in mid.threads && OnlyThread(s1, t, s1.threads[t].(tdl := mid.threads[t].tdl), mid)
    requires WellFormedTdl(t, mid, mid.threads[t].tdl)
    ensures OnlyThread(s, t, s.threads[t].(tdl := mid.threads[t].tdl, completing := false), mid)
    ensures AllRead(t, s1.threads[t], leader, s1.answers) <==> AllRead(t, s.threads[t], leader, s.answers)
    ensures mid.answers == s.answers
    ensures WellFormed(mid)
    ensures DirectSet(s1, t, leader) == DirectSet(s, t, leader)
    ensures DirectSet(s, t, leader) <= NeededSet(s, t, leader) && FollowedUp(t, mid, NeededSet(s, t, leader))
  {
    assert mid.threads == s.threads[t := s.threads[t].(tdl := mid.threads[t].tdl, completing := false)];
    DirectFacts(s, t, leader);
    StillFollowedUp(s, t, leader, mid);
  }

  lemma StillFollowedUp(s: Sys, t: Tid, leader: int, mid: Sys)
    requires t in s.threads && t in mid.threads && mid.threads == s.threads[t := mid.threads[t]] && mid.done == s.done
    ensures FollowedUp(t, mid, NeededSet(s, t, leader))
    ensures forall pos :: HeldAt(t, mid, NeededSet(s, t, leader), pos) ==> HeldAt(t, s, NeededSet(s, t, leader), pos)
  {
    hide NeededSet, HandsOn;
    NeededFollowedUp(s, t, leader);
    var u := NeededSet(s, t, leader);
    forall y, x | y in u
      ensures HandsOn(s, y, x) <==> HandsOn(mid, y, x)
    {
      SameHandsOn(s, t, mid, y, x);
    }
  }

  lemma DirectRoom(s: Sys, t: Tid, leader: int, mid: Sys, tdl: seq<Dep>)
    requires t in s.threads && t in mid.threads && mid.done == s.done && mid.threads[t].stack == s.threads[t].stack
    requires WellFormedTdl(t, mid, tdl) && Direct(t, mid.threads[t], leader, mid.done, tdl)
    ensures !Overfull(DirectSet(s, t, leader))
  {
    hide Overfull;
    forall x | x in DirectSet(s, t, leader)
      ensures Names(tdl, x.tid)
    {
      assert Covers(tdl, x);
    }
    RoomForAll(t, mid, tdl, DirectSet(s, t, leader));
  }

  lemma AllJustified(s: Sys, t: Tid, leader: int, tdl: seq<Dep>, newLeader: int)
    requires t in s.threads && Subgoals(tdl) <= NeededSet(s, t, leader)
    requires newLeader == leader || HeldAt(t, s, NeededSet(s, t, leader), newLeader)
    ensures Justified(s, t, leader, tdl, newLeader)
  {
    hide NeededSet;
    forall i | 0 <= i < |tdl|
      ensures Needs(s, t, leader, tdl[i].subgoal)
    {
      assert tdl[i].subgoal in Subgoals(tdl);
      NeededIs(s, t, leader, tdl[i].subgoal);
    }
  }

  /** After the dependencies have been brought up to date. */
  lemma SurveyEnds(s: Sys, t: Tid, leader: int, s1: Sys, mid: Sys, now: Sys, newLeader: int, busy: bool, ok: bool)
    requires WellFormed(s) && t in s.threads && OnlyThread(s, t, s.threads[t].(completing := false), s1)
    requires t in s1.threads && t in mid.threads && OnlyThread(s1, t, s1.threads[t].(tdl := mid.threads[t].tdl), mid)
    requires t in now.threads && OnlyThread(mid, t, mid.threads[t].(tdl := now.threads[t].tdl), now)
    requires AllRead(t, s.threads[t], leader, s.answers) &&
             Direct(t, mid.threads[t], leader, mid.done, mid.threads[t].tdl)
    requires WellFormedTdl(t, mid, now.threads[t].tdl) && leader <= newLeader
    requires ok ==> forall x :: Covers(mid.threads[t].tdl, x) ==> Covers(now.threads[t].tdl, x)
    requires ok ==>
               Closed(t, mid, now.threads[t].tdl, now.threads[t].tdl, newLeader) && LastsExact(mid, now.threads[t].tdl)
    requires ok ==> (busy <==> SomeBusy(mid, now.threads[t].tdl))
    requires Subgoals(now.threads[t].tdl) <= NeededSet(s, t, leader)
    requires newLeader == leader || HeldAt(t, mid, NeededSet(s, t, leader), newLeader)
    ensures OnlyThread(s, t, s.threads[t].(tdl := now.threads[t].tdl, completing := false), now)
    ensures ok ==> Surveyed(s, t, leader, now.threads[t].tdl, newLeader) && TidsIn(now.threads[t].tdl, s.threads.Keys)
    ensures ok ==> (busy <==> SomeBusy(s, now.threads[t].tdl))
    ensures now.answers == s.answers
  {
    assert now.threads == s.threads[t := s.threads[t].(tdl := now.threads[t].tdl, completing := false)];
    assert mid.threads == s.threads[t := s.threads[t].(tdl := mid.threads[t].tdl, completing := false)];
    if ok {
      StillClosed(s, mid, t, now.threads[t].tdl, newLeader);
      SameView(s, mid, t, now.threads[t].tdl);
      StillFollowedUp(s, t, leader, mid);
      AllJustified(s, t, leader, now.threads[t].tdl, newLeader);
    }
  }

  /** Completing after the survey has the effect, on the state before it, that SetCompleted describes. */
  lemma FromOriginal(s: Sys, mid: Sys, t: Tid, leader: int, tdl: seq<Dep>, s2: Sys)
    requires t in s.threads && TidsIn(tdl, s.threads.Keys) && !Names(tdl, t)
    requires OnlyThread(s, t, s.threads[t].(tdl := tdl, completing := false), mid)
    requires SetCompleted(mid, t, leader, tdl, s2)
    ensures SetCompleted(s, t, leader, tdl, s2)
  {
    forall m | m in s.threads
      ensures FramesFrom(mid.threads[m], LeaderOf(mid, t, leader, m)) ==
              FramesFrom(s.threads[m], LeaderOf(s, t, leader, m))
    {
    }
  }

  lemma OneMoreCompleted(s: Sys, tdl: seq<Dep>, i: nat, mid: Sys, s2: Sys)
    requires i < |tdl| && TidsIn(tdl, s.threads.Keys) && OthersCompleted(s, tdl[..i], mid)
    requires var m := tdl[i].subgoal.tid; !Names(tdl[..i], m)
    requires var m := tdl[i].subgoal.tid;
             && s2.threads == mid.threads[m := Popped(mid.threads[m], mid.threads[m].ccLeader).(completed := true)]
             && s2.done == mid.done + FramesFrom(mid.threads[m], mid.threads[m].ccLeader)
             && s2.answers == mid.answers
    ensures OthersCompleted(s, tdl[..i + 1], s2)
  {
    var a, b, m := tdl[..i], tdl[..i + 1], tdl[i].subgoal.tid;
    assert b[i].subgoal.tid == m;
    forall n
      ensures Names(b, n) <==> Names(a, n) || n == m
    {
      if Names(a, n) {
        var k :| 0 <= k < |a| && a[k].subgoal.tid == n;
        assert b[k].subgoal.tid == n;
      }
      if Names(b, n) && n != m {
        var k :| 0 <= k < |b| && b[k].subgoal.tid == n;
        assert k < |a| && a[k].subgoal.tid == n;
      }
    }
  }

  // ---------------------------------------------------------------- steps

  ghost predicate OnlyThread(s: Sys, t: Tid, th: Thread, s2: Sys)
    requires t in s.threads
  {
    s2.threads == s.threads[t := th] && s2.done == s.done && s2.answers == s.answers
  }

  /** Thread `t` may enter (or, having been woken, re-enter) the protocol for the leader frame `leader`. */
  ghost predicate AtCheck(s: Sys, t: Tid, leader: int) {
    && t in s.threads
    && 0 <= -leader < |s.threads[t].stack|
    && (s.threads[t].completing ==> !s.threads[t].completed && s.threads[t].ccLeader == leader)
  }

  /** The dependency list that a critical section without unread answers leaves behind. */
  ghost predicate Surveyed(s: Sys, t: Tid, leader: int, tdl: seq<Dep>, newLeader: int)
    requires t in s.threads
  {
    && AllRead(t, s.threads[t], leader, s.answers)
    && WellFormedTdl(t, s, tdl)
    && Direct(t, s.threads[t], leader, s.done, tdl)
    && leader <= newLeader
    && Closed(t, s, tdl, tdl, newLeader)
    && LastsExact(s, tdl)
    && Justified(s, t, leader, tdl, newLeader)
  }

  /** Nothing is in the list on which `t` does not depend, and a new leader is one for which such a thread waits. */
  ghost predicate Justified(s: Sys, t: Tid, leader: int, tdl: seq<Dep>, newLeader: int)
    requires t in s.threads
  {
    && (forall i :: 0 <= i < |tdl| ==> Needs(s, t, leader, tdl[i].subgoal))
    && (newLeader == leader || HeldAt(t, s, NeededSet(s, t, leader), newLeader))
  }

  lemma {:induction false} NeededNamed(s: Sys, t: Tid, leader: int, tdl: seq<Dep>, newLeader: int, x: Subgoal, n: nat)
    requires t in s.threads && Surveyed(s, t, leader, tdl, newLeader) && NeedsIn(s, t, leader, x, n)
    ensures Names(tdl, x.tid)
    decreases n
  {
    if n > 0 {
      var y :| NeedsIn(s, t, leader, y, n - 1) && HandsOn(s, y, x);
      NeededNamed(s, t, leader, tdl, newLeader, y, n - 1);
      PassedOn(s, t, leader, tdl, newLeader, y, x);
    }
  }

  lemma PassedOn(s: Sys, t: Tid, leader: int, tdl: seq<Dep>, newLeader: int, y: Subgoal, x: Subgoal)
    requires t in s.threads && Surveyed(s, t, leader, tdl, newLeader) && Names(tdl, y.tid) && HandsOn(s, y, x)
    ensures if x.tid == t then x.pos <= newLeader else Names(tdl, x.tid)
  {
    var i :| 0 <= i < |tdl| && tdl[i].subgoal.tid == y.tid;
    var deps := s.threads[tdl[i].subgoal.tid].tdl;
    assert AllAbsorbed(t, deps, s.done, tdl, newLeader);
    var j :| 0 <= j < |deps| && deps[j].subgoal == x;
    assert Absorbed(t, deps[j].subgoal, s.done, tdl, newLeader);
  }

  /** The survey names exactly the threads on which `t` depends, and there is an older leader exactly if one of these
      waits for one. */
  lemma SurveyExact(s: Sys, t: Tid, leader: int, tdl: seq<Dep>, newLeader: int)
    requires t in s.threads && Surveyed(s, t, leader, tdl, newLeader)
    ensures forall m :: Names(tdl, m) <==> m in Tids(NeededSet(s, t, leader))
    ensures OlderLeader(s, t, leader) <==> leader < newLeader
    ensures leader < newLeader ==> DirectSet(s, t, leader) != {}
    ensures tdl == [] <==> DirectSet(s, t, leader) == {}
    ensures !Overfull(NeededSet(s, t, leader)) && !Overfull(DirectSet(s, t, leader))
  {
    hide Surveyed, HandsOn, DirectSet, Overfull;
    var u := NeededSet(s, t, leader);
    forall x | x in u
      ensures Names(tdl, x.tid)
    {
      var n: nat :| NeedsIn(s, t, leader, x, n);
      NeededNamed(s, t, leader, tdl, newLeader, x, n);
    }
    SurveyListed(s, t, leader, tdl, newLeader);
    forall m | Names(tdl, m)
      ensures m in Tids(u)
    {
      var i :| 0 <= i < |tdl| && tdl[i].subgoal.tid == m;
      NeededIs(s, t, leader, tdl[i].subgoal);
    }
    forall y, x | Needs(s, t, leader, y) && HandsOn(s, y, x) && x.tid == t
      ensures x.pos <= newLeader
    {
      NeededIs(s, t, leader, y);
      PassedOn(s, t, leader, tdl, newLeader, y, x);
    }
    if leader < newLeader {
      var y, x :| y in u && HandsOn(s, y, x) && x.tid == t && x.pos == newLeader;
      NeededIs(s, t, leader, y);
      assert OlderLeader(s, t, leader);
    }
    RoomForAll(t, s, tdl, u);
    DirectFacts(s, t, leader);
    RoomForAll(t, s, tdl, DirectSet(s, t, leader));
    NeedsSomething(s, t, leader);
    if x :| x in DirectSet(s, t, leader) { assert Names(tdl, x.tid); }
    if tdl != [] { NeededIs(s, t, leader, tdl[0].subgoal); }
  }

  lemma SurveyListed(s: Sys, t: Tid, leader: int, tdl: seq<Dep>, newLeader: int)
    requires t in s.threads && Surveyed(s, t, leader, tdl, newLeader)
    ensures WellFormedTdl(t, s, tdl) && Justified(s, t, leader, tdl, newLeader) && leader <= newLeader
  {
  }

  lemma {:induction false} NothingNeeded(s: Sys, t: Tid, leader: int, x: Subgoal, n: nat)
    requires t in s.threads && DirectSet(s, t, leader) == {}
    ensures !NeedsIn(s, t, leader, x, n)
    decreases n
  {
    if n > 0 && NeedsIn(s, t, leader, x, n) {
      var y :| NeedsIn(s, t, leader, y, n - 1) && HandsOn(s, y, x);
      NothingNeeded(s, t, leader, y, n - 1);
    }
  }

  lemma NeedsSomething(s: Sys, t: Tid, leader: int)
    requires t in s.threads
    ensures DirectSet(s, t, leader) == {} ==> NeededSet(s, t, leader) == {}
  {
    if DirectSet(s, t, leader) == {} {
      forall x, n: nat
        ensures !NeedsIn(s, t, leader, x, n)
      {
        NothingNeeded(s, t, leader, x, n);
      }
    }
  }

  ghost predicate CheckStep(s: Sys, t: Tid, leader: int, s2: Sys, o: Outcome) {
    && AtCheck(s, t, leader)
    && t in s2.threads
    && var th := s.threads[t];
       var tdl := s2.threads[t].tdl;
       match o
       case Scheduled =>
         OnlyThread(s, t, th.(tdl := tdl, completing := false, lastAns := th.lastAns + 1, parked := false), s2)
       case Merged =>
         && OnlyThread(s, t, th.(tdl := tdl, completing := false), s2)
         && exists newLeader :: leader < newLeader && Surveyed(s, t, leader, tdl, newLeader)
       case Delayed =>
         && OnlyThread(s, t, th.(tdl := [], completing := false), s2)
         && tdl == [] && Surveyed(s, t, leader, tdl, leader)
       case Alone =>
         && tdl == [] && Surveyed(s, t, leader, tdl, leader)
         && SetCompleted(s, t, leader, [], s2)
       case CompletedSet =>
         && tdl != [] && Surveyed(s, t, leader, tdl, leader)
         && !SomeBusy(s, tdl) && !NewerAnswers(s, tdl) && FormSCC(t, s, tdl)
         && SetCompleted(s, t, leader, tdl, s2)
       case Blocked =>
         && tdl != [] && Surveyed(s, t, leader, tdl, leader)
         && (SomeBusy(s, tdl) || NewerAnswers(s, tdl) || !FormSCC(t, s, tdl))
         && OnlyThread(s, t, th.(tdl := tdl, completing := true, completed := false,
                                 ccLeader := leader, parked := true), s2)
       case Aborted =>
         OnlyThread(s, t, th.(tdl := tdl, completing := false), s2) && Overfull(NeededSet(s, t, leader))
  }

  // ---------------------------------------------------------------- the protocol

  class Engine {
    var threads: map<Tid, Thread>
    var done: set<Subgoal>
    var answers: map<Subgoal, nat>

    constructor (threads: map<Tid, Thread>, done: set<Subgoal>, answers: map<Subgoal, nat>)
      ensures State() == Sys(threads, done, answers)
    {
      this.threads, this.done, this.answers := threads, done, answers;
    }

    ghost function State(): Sys
      reads this
    {
      Sys(threads, done, answers)
    }

    static method FindTid(tdl: seq<Dep>, tid: Tid) returns (i: nat)
      ensures i <= |tdl|
      ensures i < |tdl| ==> tdl[i].subgoal.tid == tid
      ensures i < |tdl| <==> Names(tdl, tid)
    {
      i := 0;
      while i < |tdl|
        invariant i <= |tdl|
        invariant forall k :: 0 <= k < i ==> tdl[k].subgoal.tid != tid
      {
        if tdl[i].subgoal.tid == tid { return; }
        i := i + 1;
      }
    }

    /** Records the dependency `s`, keeping one entry, the oldest, for each thread.  The `last` field of a
        new entry holds whatever was in memory. */
    static method CheckInsSubg(tdl: seq<Dep>, s: Subgoal) returns (tdl2: seq<Dep>, isNew: bool, ok: bool)
      requires OnePerThread(tdl) && |tdl| < MaxThreadDeps
      ensures |tdl2| < MaxThreadDeps
      ensures !ok <==> !Names(tdl, s.tid) && |tdl| == MaxThreadDeps - 1
      ensures !ok ==> !isNew
      ensures OnePerThread(tdl2)
      ensures ok ==> Covers(tdl2, s) && (isNew <==> !Covers(tdl, s))
      ensures !isNew ==> tdl2 == tdl
      ensures |tdl| <= |tdl2|
      ensures forall i :: 0 <= i < |tdl| ==>
                && tdl2[i].subgoal.tid == tdl[i].subgoal.tid
                && tdl2[i].last == tdl[i].last
                && tdl2[i].subgoal == (if isNew && tdl[i].subgoal.tid == s.tid then s else tdl[i].subgoal)
      ensures forall i :: |tdl| <= i < |tdl2| ==> i == |tdl| && tdl2[i].subgoal == s && !Names(tdl, s.tid)
      ensures forall x :: Covers(tdl, x) ==> Covers(tdl2, x)
    {
      tdl2, isNew, ok := tdl, false, true;
      var i := FindTid(tdl, s.tid);
      if i < |tdl| {
        if tdl[i].subgoal.pos < s.pos {
          tdl2, isNew := tdl[i := tdl[i].(subgoal := s)], true;
          assert tdl2[i].subgoal == s;
        }
      } else if |tdl| == MaxThreadDeps - 1 {
        ok := false;
      } else {
        var junk: int := *;
        tdl2, isNew := tdl + [Dep(s, junk)], true;
        assert tdl2[|tdl|].subgoal == s;
      }
      forall x | Covers(tdl, x)
        ensures Covers(tdl2, x)
      {
        var k :| 0 <= k < |tdl| && tdl[k].subgoal.tid == x.tid && x.pos <= tdl[k].subgoal.pos;
        assert tdl2[k].subgoal.tid == x.tid && x.pos <= tdl2[k].subgoal.pos;
      }
    }

    /** Schedules unread answers and records afresh the incomplete subgoals that external frames read.
        `internal` says whether a consumer inside the SCC has unread answers. */
    method FindFixpoint(t: Tid, leader: int, internal: bool) returns (found: bool, ok: bool)
      requires t in threads && WellFormed(State()) && 0 <= -leader < |threads[t].stack|
      modifies `threads
      ensures t in threads && OnlyThread(old(State()), t, old(threads)[t].(tdl := threads[t].tdl), State())
      ensures WellFormedTdl(t, State(), threads[t].tdl)
      ensures ok ==> Direct(t, threads[t], leader, done, threads[t].tdl)
      ensures ok ==> (found <==> internal || !AllRead(t, old(threads)[t], leader, answers))
      ensures Subgoals(threads[t].tdl) <= DirectSet(old(State()), t, leader)
      ensures !ok ==> Overfull(DirectSet(old(State()), t, leader))
    {
      hide Overfull, DirectSet;
      DirectFacts(State(), t, leader);
      ghost var u := DirectSet(State(), t, leader);
      var th := threads[t];
      var tdl: seq<Dep> := [];
      found, ok := internal, true;
      var i := |th.stack| - 1;
      while ok && -i <= leader
        invariant threads == old(threads)
        invariant -leader - 1 <= i < |th.stack|
        invariant WellFormedTdl(t, State(), tdl) && Subgoals(tdl) <= u
        invariant ok ==> Direct(t, th, -i - 1, done, tdl)
        invariant !found ==> AllRead(t, th, -i - 1, answers)
        invariant (found ==> internal || !AllRead(t, th, leader, answers)) && (internal ==> found)
        invariant !ok ==> Overfull(u)
        decreases i + leader + 1, ok
      {
        var f := th.stack[i];
        if External(t, f) {
          if f.read != Answers(answers, f.subgoal) { found := true; }
          if f.subgoal !in done {
            var isNew;
            ghost var before := tdl;
            tdl, isNew, ok := CheckInsSubg(tdl, f.subgoal);
            if !ok { OverflowIsOverfull(before, u, f.subgoal); }
            SubgoalsGrow(before, tdl, f.subgoal);
          }
        }
        if ok { i := i - 1; }
      }
      assert ok ==> -i - 1 == leader;
      threads := threads[t := th.(tdl := tdl)];
      assert threads[t].tdl == tdl;
    }

    /** Takes over the dependencies that a waiting thread has recorded. */
    method PropagateDeps(t: Tid, deps: seq<Dep>, tdl: seq<Dep>, leader: int, newDeps: bool,
                         ghost u: set<Subgoal>)
      returns (tdl2: seq<Dep>, leader2: int, newDeps2: bool, ok: bool)
      requires t in threads && WellFormedTdl(t, State(), tdl) && TidsIn(deps, threads.Keys)
      requires forall j :: 0 <= j < |deps| && deps[j].subgoal !in done && deps[j].subgoal.tid != t ==>
                 deps[j].subgoal in u
      requires Subgoals(tdl) <= u
      ensures WellFormedTdl(t, State(), tdl2)
      ensures leader <= leader2
      ensures ok ==> AllAbsorbed(t, deps, done, tdl2, leader2)
      ensures leader2 == leader || exists j ::
                0 <= j < |deps| && deps[j].subgoal.tid == t && deps[j].subgoal.pos == leader2 &&
                deps[j].subgoal !in done
      ensures forall x :: Covers(tdl, x) ==> Covers(tdl2, x)
      ensures newDeps ==> newDeps2
      ensures Grown(tdl, tdl2) && (newDeps2 == newDeps ==> tdl2 == tdl || newDeps)
      ensures newDeps2 && !newDeps ==> Uncovered(tdl2, u) < Uncovered(tdl, u)
      ensures Uncovered(tdl2, u) <= Uncovered(tdl, u)
      ensures Subgoals(tdl2) <= u
      ensures !ok ==> Overfull(u)
    {
      tdl2, leader2, newDeps2, ok := tdl, leader, newDeps, true;
      var j := 0;
      while ok && j < |deps|
        invariant 0 <= j <= |deps|
        invariant WellFormedTdl(t, State(), tdl2)
        invariant leader <= leader2
        invariant ok ==> forall k :: 0 <= k < j ==> Absorbed(t, deps[k].subgoal, done, tdl2, leader2)
        invariant leader2 == leader || exists k ::
                    0 <= k < |deps| && deps[k].subgoal.tid == t && deps[k].subgoal.pos == leader2 &&
                    deps[k].subgoal !in done
        invariant forall x :: Covers(tdl, x) ==> Covers(tdl2, x)
        invariant newDeps ==> newDeps2
        invariant Grown(tdl, tdl2) && (newDeps2 == newDeps ==> tdl2 == tdl || newDeps)
        invariant newDeps2 && !newDeps ==> Uncovered(tdl2, u) < Uncovered(tdl, u)
        invariant Uncovered(tdl2, u) <= Uncovered(tdl, u)
        invariant Subgoals(tdl2) <= u
        invariant !ok ==> Overfull(u)
        decreases |deps| - j, ok
      {
        var x := deps[j].subgoal;
        if x !in done {
          if x.tid == t {
            if leader2 < x.pos { leader2 := x.pos; }
          } else {
            ghost var before := tdl2;
            var isNew;
            tdl2, isNew, ok := CheckInsSubg(tdl2, x);
            if !ok { OverflowIsOverfull(before, u, x); }
            SubgoalsGrow(before, tdl2, x);
            if isNew {
              newDeps2 := true;
              assert x in Uncovered(before, u) && x !in Uncovered(tdl2, u);
            }
          }
        }
        if ok { j := j + 1; }
      }
    }

    /** One step of UpdateDeps: visits the dependency `e` of thread `t`. */
    method VisitDep(t: Tid, e: Subgoal, tdl: seq<Dep>, leader: int, busy: bool, newDeps: bool,
                    ghost u: set<Subgoal>)
      returns (tdl2: seq<Dep>, leader2: int, busy2: bool, newDeps2: bool, ok: bool)
      requires t in threads && WellFormed(State()) && WellFormedTdl(t, State(), tdl)
      requires e.tid in threads && e.tid != t && e !in done && e in u
      requires FollowedUp(t, State(), u) && Subgoals(tdl) <= u
      ensures WellFormedTdl(t, State(), tdl2)
      ensures forall x :: Covers(tdl, x) ==> Covers(tdl2, x)
      ensures leader <= leader2 && (leader2 == leader || HeldAt(t, State(), u, leader2))
      ensures newDeps ==> newDeps2
      ensures Uncovered(tdl2, u) <= Uncovered(tdl, u)
      ensures newDeps2 && !newDeps ==> Uncovered(tdl2, u) < Uncovered(tdl, u)
      ensures Subgoals(tdl2) <= u
      ensures ok ==> Covers(tdl2, e)
      ensures ok && threads[e.tid].completing ==> AllAbsorbed(t, threads[e.tid].tdl, done, tdl2, leader2)
      ensures ok ==> forall i :: 0 <= i < |tdl2| && tdl2[i].subgoal.tid == e.tid ==>
                tdl2[i].last == LastSeen(threads[e.tid])
      ensures |tdl| <= |tdl2|
      ensures forall i :: 0 <= i < |tdl| ==>
                && tdl2[i].subgoal.tid == tdl[i].subgoal.tid
                && (tdl[i].subgoal.tid != e.tid ==> tdl2[i].last == tdl[i].last)
      ensures ok && !newDeps2 ==> forall i :: 0 <= i < |tdl2| ==>
                Names(tdl, tdl2[i].subgoal.tid) || tdl2[i].subgoal.tid == e.tid
      ensures ok ==> (busy2 <==> busy || !threads[e.tid].completing)
      ensures !ok ==> Overfull(u)
    {
      hide Overfull, Absorbed;
      leader2, busy2, newDeps2 := leader, busy, newDeps;
      var isNew;
      tdl2, isNew, ok := CheckInsSubg(tdl, e);
      if !ok {
        OverflowIsOverfull(tdl, u, e);
        return;
      }
      SubgoalsGrow(tdl, tdl2, e);
      var i := FindTid(tdl2, e.tid);
      ghost var mid := tdl2;
      tdl2 := tdl2[i := tdl2[i].(last := LastSeen(threads[e.tid]))];
      SameSubgoals(mid, tdl2);
      if threads[e.tid].completing {
        ghost var before := tdl2;
        tdl2, leader2, newDeps2, ok := PropagateDeps(t, threads[e.tid].tdl, tdl2, leader, newDeps, u);
        assert Covers(before, e);
      } else {
        busy2 := true;
      }
    }

    /** The inner loop of UpdateDeps: one pass over the list of thread `t`, extending `start`. */
    method UpdatePass(t: Tid, start: seq<Dep>, leader: int, busy: bool, ghost u: set<Subgoal>)
      returns (tdl: seq<Dep>, leader2: int, busy2: bool, newDeps: bool, ok: bool)
      requires t in threads && WellFormed(State()) && FollowedUp(t, State(), u) && Subgoals(threads[t].tdl) <= u
      requires WellFormedTdl(t, State(), threads[t].tdl)
      requires start == [] || start == threads[t].tdl
      requires busy ==> SomeBusy(State(), start)
      ensures WellFormedTdl(t, State(), tdl) && Subgoals(tdl) <= u
      ensures leader <= leader2 && (leader2 == leader || HeldAt(t, State(), u, leader2))
      ensures Uncovered(tdl, u) <= Uncovered(start, u)
      ensures newDeps ==> Uncovered(tdl, u) < Uncovered(start, u)
      ensures ok ==> Visited(t, State(), threads[t].tdl, tdl, leader2, busy2) && (busy2 ==> SomeBusy(State(), tdl))
      ensures ok && !newDeps ==> forall i :: 0 <= i < |tdl| ==> Names(threads[t].tdl, tdl[i].subgoal.tid)
      ensures !ok ==> Overfull(u)
    {
      hide WellFormed, WellFormedTdl, FollowedUp, HeldAt, Uncovered, Visited, SomeBusy, Names, Covers, Subgoals,
          Overfull;
      hide AllAbsorbed, Passing, LastSeen;
      var cur := threads[t].tdl;
      ghost var s := State();
      tdl, leader2, busy2, newDeps, ok := start, leader, busy, false, true;
      StartTids(t, s, start);
      PassStarts(t, s, start, leader, busy, u);
      var j := 0;
      while ok && j < |cur|
        invariant 0 <= j <= |cur| && Passing(t, s, u, start, leader, j, tdl, leader2, busy2, newDeps, ok)
        decreases |cur| - j, ok
      {
        ghost var before, beforeLeader, beforeBusy, beforeNew := tdl, leader2, busy2, newDeps;
        PassEntry(t, s, u, start, leader, j, tdl, leader2, busy2, newDeps);
        tdl, leader2, busy2, newDeps, ok := VisitDep(t, cur[j].subgoal, tdl, leader2, busy2, newDeps, u);
        PassStep(t, s, u, start, leader, j, before, beforeLeader, beforeBusy, beforeNew, tdl, leader2, busy2, newDeps,
                 ok);
        if ok { j := j + 1; }
      }
      PassEnds(t, s, u, start, leader, j, tdl, leader2, busy2, newDeps, ok);
    }

    /** Brings the dependencies of thread `t` up to date, transitively.  The loop ends: a pass that asks
        for another one has dominated more of the finitely many recorded dependencies. */
    method UpdateDeps(t: Tid, leader: int, ghost u: set<Subgoal>) returns (busy: bool, leader2: int, ok: bool)
      requires t in threads && WellFormed(State()) && WellFormedTdl(t, State(), threads[t].tdl)
      requires FollowedUp(t, State(), u) && Subgoals(threads[t].tdl) <= u
      modifies `threads
      ensures t in threads && OnlyThread(old(State()), t, old(threads)[t].(tdl := threads[t].tdl), State())
      ensures WellFormedTdl(t, old(State()), threads[t].tdl)
      ensures leader <= leader2 && (leader2 == leader || HeldAt(t, old(State()), u, leader2))
      ensures ok ==> forall x :: Covers(old(threads)[t].tdl, x) ==> Covers(threads[t].tdl, x)
      ensures ok ==> Closed(t, old(State()), threads[t].tdl, threads[t].tdl, leader2)
      ensures ok ==> LastsExact(old(State()), threads[t].tdl)
      ensures ok ==> (busy <==> SomeBusy(old(State()), threads[t].tdl))
      ensures Subgoals(threads[t].tdl) <= u
      ensures !ok ==> Overfull(u)
    {
      hide Updating, Visited, WellFormed, WellFormedTdl, OnlyThread, Closed, LastsExact, SomeBusy, Covers, Uncovered;
      hide FollowedUp, HeldAt, Subgoals, OnePerThread, TidsIn, Names, Overfull;
      ghost var s := State();
      var newTdl: seq<Dep> := [];
      var newDeps := true;
      busy, leader2, ok := false, leader, true;
      StartUpdating(t, s, u, leader);
      while ok && newDeps
        invariant Updating(t, s, u, State(), newTdl, leader, leader2, busy, newDeps, ok)
        decreases ok, Uncovered(newTdl, u), newDeps
      {
        ghost var mid, from, leader1, busy1 := State(), newTdl, leader2, busy;
        UpdatingPass(t, s, u, mid, from, leader, leader1, busy1, newDeps);
        newTdl, leader2, busy, newDeps, ok := UpdatePass(t, newTdl, leader2, busy, u);
        SetTdl(t, newTdl);
        UpdatedPass(t, s, u, mid, leader, leader1, newTdl, leader2, busy, newDeps, ok, from, busy1, true, State());
      }
      UpdatingEnds(t, s, u, State(), newTdl, leader, leader2, busy, newDeps, ok);
    }

    method SetTdl(t: Tid, tdl: seq<Dep>)
      requires t in threads
      modifies `threads
      ensures OnlyThread(old(State()), t, old(threads)[t].(tdl := tdl), State())
    {
      threads := threads[t := threads[t].(tdl := tdl)];
    }

    /** Whether a thread in the set has found answers after one that depends on it looked last. */
    method MayHaveAnswers(tdl: seq<Dep>) returns (rc: bool)
      requires TidsIn(tdl, threads.Keys)
      ensures rc <==> NewerAnswers(State(), tdl)
    {
      rc := false;
      var i := 0;
      while i < |tdl|
        invariant 0 <= i <= |tdl|
        invariant rc ==> NewerAnswers(State(), tdl)
        invariant !rc ==> forall k, j :: 0 <= k < i && 0 <= j < |threads[tdl[k].subgoal.tid].tdl| ==>
                    UpToDate(State(), threads[tdl[k].subgoal.tid].tdl[j])
      {
        var deps := threads[tdl[i].subgoal.tid].tdl;
        var j := 0;
        while j < |deps|
          invariant 0 <= j <= |deps|
          invariant rc ==> NewerAnswers(State(), tdl)
          invariant !rc ==> forall k, j :: 0 <= k < i && 0 <= j < |threads[tdl[k].subgoal.tid].tdl| ==>
                      UpToDate(State(), threads[tdl[k].subgoal.tid].tdl[j])
          invariant !rc ==> forall l :: 0 <= l < j ==> UpToDate(State(), deps[l])
        {
          var tid := deps[j].subgoal.tid;
          if tid !in threads || deps[j].last < threads[tid].lastAns {
            assert !UpToDate(State(), threads[tdl[i].subgoal.tid].tdl[j]);
            rc := true;
          }
          j := j + 1;
        }
        i := i + 1;
      }
    }

    /** Whether `t` and the threads it depends on depend on exactly each other, below their leaders. */
    method CheckForSCC(t: Tid, tdl: seq<Dep>) returns (scc: bool)
      requires TidsIn(tdl, threads.Keys)
      ensures scc <==> FormSCC(t, State(), tdl)
    {
      var i := 0;
      while i < |tdl|
        invariant 0 <= i <= |tdl|
        invariant forall k :: 0 <= k < i ==> InSCC(t, State(), tdl, tdl[k])
      {
        var d := threads[tdl[i].subgoal.tid];
        if d.ccLeader < tdl[i].subgoal.pos {
          assert !InSCC(t, State(), tdl, tdl[i]);
          return false;
        }
        var j := 0;
        while j < |d.tdl|
          invariant 0 <= j <= |d.tdl|
          invariant forall l :: 0 <= l < j ==> d.tdl[l].subgoal.tid == t || Names(tdl, d.tdl[l].subgoal.tid)
        {
          var k := FindTid(tdl, d.tdl[j].subgoal.tid);
          if d.tdl[j].subgoal.tid != t && k == |tdl| {
            assert !InSCC(t, State(), tdl, tdl[i]);
            return false;
          }
          j := j + 1;
        }
        j := 0;
        while j < |tdl|
          invariant 0 <= j <= |tdl|
          invariant forall l ::
                      0 <= l < j ==> tdl[l].subgoal.tid == tdl[i].subgoal.tid || Names(d.tdl, tdl[l].subgoal.tid)
        {
          var k := FindTid(d.tdl, tdl[j].subgoal.tid);
          if tdl[j].subgoal.tid != tdl[i].subgoal.tid && k == |d.tdl| {
            assert !InSCC(t, State(), tdl, tdl[i]);
            return false;
          }
          j := j + 1;
        }
        i := i + 1;
      }
      return true;
    }

    /** Marks every subgoal of the stack of `m`, from `leader` to the top, as completed and pops it. */
    method CompleteTop(m: Tid, leader: int)
      requires m in threads && 0 <= -leader <= |threads[m].stack|
      modifies `threads, `done
      ensures threads == old(threads)[m := Popped(old(threads)[m], leader)]
      ensures done == old(done) + FramesFrom(old(threads)[m], leader)
    {
      var th := threads[m];
      var i := -leader;
      while i < |th.stack|
        invariant -leader <= i <= |th.stack|
        invariant threads == old(threads)
        invariant done == old(done) + FramesFrom(th.(stack := th.stack[..i]), leader)
      {
        ghost var before := FramesFrom(th.(stack := th.stack[..i]), leader);
        done := done + {th.stack[i].subgoal};
        i := i + 1;
        FramesFromNext(th, leader, i);
      }
      assert th.stack[..|th.stack|] == th.stack;
      threads := threads[m := Popped(th, leader)];
    }

    method CompleteOtherThreads(tdl: seq<Dep>)
      requires OnePerThread(tdl) && TidsIn(tdl, threads.Keys)
      requires forall m :: Names(tdl, m) ==> 0 <= -threads[m].ccLeader <= |threads[m].stack|
      modifies `threads, `done
      ensures OthersCompleted(old(State()), tdl, State())
    {
      var i := 0;
      ghost var s := State();
      while i < |tdl|
        invariant 0 <= i <= |tdl|
        invariant OthersCompleted(s, tdl[..i], State())
      {
        var m := tdl[i].subgoal.tid;
        ghost var before := State();
        assert !Names(tdl[..i], m);
        CompleteTop(m, threads[m].ccLeader);
        threads := threads[m := threads[m].(completed := true)];
        OneMoreCompleted(s, tdl, i, before, State());
        i := i + 1;
      }
      assert tdl[..|tdl|] == tdl;
    }

    /** The first part of a critical section: schedule unread answers or, failing that, bring the
        dependencies up to date. */
    method Survey(t: Tid, leader: int, internal: bool)
      returns (found: bool, busy: bool, newLeader: int, ok: bool)
      requires WellFormed(State()) && AtCheck(State(), t, leader)
      modifies `threads
      ensures t in threads && OnlyThread(old(State()), t, old(threads)[t].(tdl := threads[t].tdl, completing := false),
                                         State())
      ensures ok ==> (found <==> internal || !AllRead(t, old(threads)[t], leader, answers))
      ensures ok && !found ==> Surveyed(old(State()), t, leader, threads[t].tdl, newLeader)
      ensures ok && !found ==> (busy <==> SomeBusy(old(State()), threads[t].tdl))
      ensures ok ==> !Overfull(DirectSet(old(State()), t, leader))
      ensures !ok ==> Overfull(DirectSet(old(State()), t, leader)) ||
                      (!internal && AllRead(t, old(threads)[t], leader, answers) &&
                       Overfull(NeededSet(old(State()), t, leader)))
    {
      hide WellFormed, WellFormedTdl, Direct, AllRead, Closed, LastsExact, SomeBusy, Covers, FollowedUp, HeldAt,
          Surveyed, NeededSet, DirectSet;
      hide OnePerThread, TidsIn, Names, Overfull, Subgoals, OnlyThread;
      ghost var s := State();
      busy, newLeader := false, leader;
      CheckFacts(s, t, leader);
      StopWaiting(t);
      ghost var s1 := State();
      StillWellFormed(s, t, s1);
      found, ok := FindFixpoint(t, leader, internal);
      ghost var mid := State();
      SurveyStarts(s, t, leader, s1, mid);
      if ok { DirectRoom(s, t, leader, mid, mid.threads[t].tdl); }
      if !ok || found { return; }
      busy, newLeader, ok := UpdateDeps(t, leader, NeededSet(s, t, leader));
      SurveyEnds(s, t, leader, s1, mid, State(), newLeader, busy, ok);
    }

    method StopWaiting(t: Tid)
      requires t in threads
      modifies `threads
      ensures OnlyThread(old(State()), t, old(threads)[t].(completing := false), State())
    {
      threads := threads[t := threads[t].(completing := false)];
    }

    method CompleteSet(t: Tid, leader: int)
      requires WellFormed(State()) && t in threads && 0 <= -leader < |threads[t].stack| && !threads[t].completing
      requires WellFormedTdl(t, State(), threads[t].tdl) && !SomeBusy(State(), threads[t].tdl)
      modifies `threads, `done
      ensures SetCompleted(old(State()), t, leader, old(threads)[t].tdl, State())
    {
      var tdl := threads[t].tdl;
      ghost var s := State();
      CompleteOtherThreads(tdl);
      ghost var mid := State();
      assert mid.threads[t] == s.threads[t];
      CompleteTop(t, leader);
      forall x
        ensures x in done <==>
                  x in s.done
                  || exists m :: m in s.threads && Member(t, tdl, m)
                                 && x in FramesFrom(s.threads[m], LeaderOf(s, t, leader, m))
      {
        if x in FramesFrom(s.threads[t], leader) { assert Member(t, tdl, t); }
        if m :| m in s.threads && Names(tdl, m) && x in FramesFrom(s.threads[m], s.threads[m].ccLeader) {
          assert Member(t, tdl, m);
        }
      }
    }

    /** The end of a critical section in which the SCC, alone or with those of other threads, is completed. */
    method Complete(t: Tid, leader: int, ghost s: Sys, ghost tdl: seq<Dep>)
      requires WellFormed(s) && AtCheck(s, t, leader) && t in threads && threads[t].tdl == tdl
      requires OnlyThread(s, t, s.threads[t].(tdl := tdl, completing := false), State())
      requires Surveyed(s, t, leader, tdl, leader) && !SomeBusy(s, tdl)
      modifies `threads, `done
      ensures SetCompleted(s, t, leader, tdl, State()) && t in threads && threads[t].tdl == tdl
    {
      hide WellFormed, Surveyed, SetCompleted, SomeBusy;
      ghost var mid := State();
      BeforeCompletion(s, mid, t, leader, tdl);
      CompleteSet(t, leader);
      FromOriginal(s, mid, t, leader, tdl, State());
      TdlKept(s, t, leader, tdl, State());
    }

    method Wait(t: Tid, leader: int)
      requires t in threads
      modifies `threads
      ensures OnlyThread(old(State()), t,
                         old(threads)[t].(completing := true, completed := false, ccLeader := leader, parked := true),
                             State())
    {
      threads := threads[t := threads[t].(completing := true, completed := false, ccLeader := leader, parked := true)];
    }

    method CountAnswers(t: Tid)
      requires t in threads
      modifies `threads
      ensures OnlyThread(old(State()), t, old(threads)[t].(lastAns := old(threads)[t].lastAns + 1, parked := false),
                         State())
    {
      threads := threads[t := threads[t].(lastAns := threads[t].lastAns + 1, parked := false)];
    }

    /** One critical section of check_complete for the leader frame `leader`, up to the next wait.
        `internal` and `resumed` stand for the scheduling of consumers and of suspensions inside the SCC. */
    method CheckComplete(t: Tid, leader: int, internal: bool, resumed: bool) returns (o: Outcome)
      requires WellFormed(State()) && AtCheck(State(), t, leader)
      modifies `threads, `done
      ensures CheckStep(old(State()), t, leader, State(), o)
      ensures var s, unread := old(State()), internal || !AllRead(t, old(threads)[t], leader, answers);
              && (o == Aborted <==>
                  Overfull(DirectSet(s, t, leader)) || (!unread && Overfull(NeededSet(s, t, leader))))
              && (o == Scheduled <==> unread && !Overfull(DirectSet(s, t, leader)))
              && (o !in {Aborted, Scheduled} ==>
                    && (o == Merged <==> OlderLeader(s, t, leader))
                    && (o == Alone <==> DirectSet(s, t, leader) == {} && !resumed)
                    && (o == Delayed <==> DirectSet(s, t, leader) == {} && resumed))
    {
      hide WellFormed, AtCheck, Surveyed, SetCompleted, SomeBusy, NewerAnswers, FormSCC, AllRead, CheckStep, OnlyThread;
      hide Overfull, TidsIn, Names, WellFormedTdl, NeededSet, DirectSet, OlderLeader;
      ghost var s := State();
      CheckFacts(s, t, leader);
      var found, busy, newLeader, ok := Survey(t, leader, internal);
      ghost var mid, list := State(), threads[t].tdl;
      SurveyFacts(s, t, leader, mid, list);
      if !ok {
        IsAborted(s, t, leader, mid, list);
        return Aborted;
      }
      if found {
        CountAnswers(t);
        IsScheduled(s, t, leader, mid, list, State());
        return Scheduled;
      }
      var tdl := threads[t].tdl;
      IsSurveyed(s, t, leader, tdl, newLeader, mid);
      SurveyExact(s, t, leader, tdl, newLeader);
      if leader < newLeader {
        IsMerged(s, t, leader, mid, tdl, newLeader);
        return Merged;
      }
      if tdl == [] {
        if resumed {
          IsDelayed(s, t, leader, mid);
          return Delayed;
        }
        NobodyBusy(s);
        Complete(t, leader, s, tdl);
        IsCompleted(s, t, leader, tdl, State());
        return Alone;
      }
      if !busy {
        var newer := MayHaveAnswers(tdl);
        if !newer {
          var scc := CheckForSCC(t, tdl);
          if scc {
            Complete(t, leader, s, tdl);
            IsCompleted(s, t, leader, tdl, State());
            return CompletedSet;
          }
        }
      }
      Wait(t, leader);
      IsBlocked(s, t, leader, mid, tdl, State());
      return Blocked;
    }
  }

  lemma BeforeCompletion(s: Sys, mid: Sys, t: Tid, leader: int, tdl: seq<Dep>)
    requires WellFormed(s) && AtCheck(s, t, leader) && Surveyed(s, t, leader, tdl, leader) && !SomeBusy(s, tdl)
    requires OnlyThread(s, t, s.threads[t].(tdl := tdl, completing := false), mid)
    ensures t in mid.threads && WellFormed(mid) && 0 <= -leader < |mid.threads[t].stack| && !mid.threads[t].completing
    ensures WellFormedTdl(t, mid, tdl) && !SomeBusy(mid, tdl) && TidsIn(tdl, s.threads.Keys) && !Names(tdl, t)
  {
    SameView(s, mid, t, tdl);
  }

  lemma TdlKept(s: Sys, t: Tid, leader: int, tdl: seq<Dep>, s2: Sys)
    requires t in s.threads && TidsIn(tdl, s.threads.Keys) && SetCompleted(s, t, leader, tdl, s2)
    ensures t in s2.threads && s2.threads[t].tdl == tdl
  {
  }

  lemma SurveyFacts(s: Sys, t: Tid, leader: int, mid: Sys, tdl: seq<Dep>)
    requires t in s.threads && t in mid.threads && tdl == mid.threads[t].tdl
    requires OnlyThread(s, t, s.threads[t].(tdl := tdl, completing := false), mid)
    ensures mid.answers == s.answers && mid.threads.Keys == s.threads.Keys && mid.done == s.done
  {
  }

  lemma IsAborted(s: Sys, t: Tid, leader: int, mid: Sys, tdl: seq<Dep>)
    requires AtCheck(s, t, leader) && t in mid.threads && tdl == mid.threads[t].tdl
    requires Overfull(DirectSet(s, t, leader)) || Overfull(NeededSet(s, t, leader))
    requires OnlyThread(s, t, s.threads[t].(tdl := tdl, completing := false), mid)
    ensures CheckStep(s, t, leader, mid, Aborted)
  {
    DirectOverfull(s, t, leader);
  }

  lemma DirectOverfull(s: Sys, t: Tid, leader: int)
    requires t in s.threads
    ensures Overfull(DirectSet(s, t, leader)) ==> Overfull(NeededSet(s, t, leader))
  {
    hide DirectSet, NeededSet;
    DirectFacts(s, t, leader);
    NoMore(Tids(DirectSet(s, t, leader)), Tids(NeededSet(s, t, leader)));
  }

  lemma IsScheduled(s: Sys, t: Tid, leader: int, mid: Sys, tdl: seq<Dep>, s2: Sys)
    requires AtCheck(s, t, leader) && t in mid.threads && tdl == mid.threads[t].tdl
    requires OnlyThread(s, t, s.threads[t].(tdl := tdl, completing := false), mid)
    requires OnlyThread(mid, t, mid.threads[t].(lastAns := mid.threads[t].lastAns + 1, parked := false), s2)
    ensures CheckStep(s, t, leader, s2, Scheduled) && s2.answers == s.answers
  {
    assert s2.threads == s.threads[t := s2.threads[t]];
  }

  lemma IsSurveyed(s: Sys, t: Tid, leader: int, tdl: seq<Dep>, newLeader: int, mid: Sys)
    requires t in s.threads && Surveyed(s, t, leader, tdl, newLeader)
    requires mid.threads.Keys == s.threads.Keys && t in mid.threads
    requires OnlyThread(s, t, s.threads[t].(tdl := tdl, completing := false), mid)
    ensures TidsIn(tdl, s.threads.Keys) && TidsIn(tdl, mid.threads.Keys) && leader <= newLeader
    ensures NewerAnswers(s, tdl) <==> NewerAnswers(mid, tdl)
    ensures FormSCC(t, s, tdl) <==> FormSCC(t, mid, tdl)
  {
    SameView(s, mid, t, tdl);
  }

  lemma IsMerged(s: Sys, t: Tid, leader: int, mid: Sys, tdl: seq<Dep>, newLeader: int)
    requires AtCheck(s, t, leader) && t in mid.threads && tdl == mid.threads[t].tdl
    requires OnlyThread(s, t, s.threads[t].(tdl := tdl, completing := false), mid)
    requires leader < newLeader && Surveyed(s, t, leader, tdl, newLeader)
    ensures CheckStep(s, t, leader, mid, Merged)
  {
    hide Surveyed;
  }

  lemma IsDelayed(s: Sys, t: Tid, leader: int, mid: Sys)
    requires AtCheck(s, t, leader) && t in mid.threads && mid.threads[t].tdl == []
    requires OnlyThread(s, t, s.threads[t].(tdl := [], completing := false), mid) && Surveyed(s, t, leader, [], leader)
    ensures CheckStep(s, t, leader, mid, Delayed)
  {
    hide Surveyed;
  }

  lemma NobodyBusy(s: Sys)
    ensures !SomeBusy(s, [])
  {
  }

  lemma IsCompleted(s: Sys, t: Tid, leader: int, tdl: seq<Dep>, s2: Sys)
    requires AtCheck(s, t, leader) && t in s2.threads && s2.threads[t].tdl == tdl && Surveyed(s, t, leader, tdl, leader)
    requires SetCompleted(s, t, leader, tdl, s2)
    requires tdl == [] || (!SomeBusy(s, tdl) && !NewerAnswers(s, tdl) && FormSCC(t, s, tdl))
    ensures CheckStep(s, t, leader, s2, if tdl == [] then Alone else CompletedSet) && s2.answers == s.answers
  {
    hide Surveyed;
  }

  lemma IsBlocked(s: Sys, t: Tid, leader: int, mid: Sys, tdl: seq<Dep>, s2: Sys)
    requires AtCheck(s, t, leader) && t in mid.threads && tdl == mid.threads[t].tdl && tdl != []
    requires OnlyThread(s, t, s.threads[t].(tdl := tdl, completing := false), mid) &&
             Surveyed(s, t, leader, tdl, leader)
    requires SomeBusy(s, tdl) || NewerAnswers(s, tdl) || !FormSCC(t, s, tdl)
    requires OnlyThread(mid, t, mid.threads[t].(completing := true, completed := false, ccLeader := leader, parked :=
                                                true), s2)
    ensures CheckStep(s, t, leader, s2, Blocked) && s2.answers == s.answers
  {
    hide Surveyed, SomeBusy, NewerAnswers, FormSCC;
    assert s2.threads == s.threads[t := s2.threads[t]];
  }
}
