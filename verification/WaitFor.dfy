/** The wait-for graph between threads that wait for each other's tables. */
module WaitFor {

  type Tid = int

  const NoTid: Tid := -1

  // `w[t]` is the thread that `t` waits for; threads outside the map wait for nobody.
  type Waits = map<Tid, Tid>

  ghost predicate IsPath(w: Waits, p: seq<Tid>) {
    && |p| > 0
    && forall i :: 0 <= i < |p| - 1 ==> p[i] in w && w[p[i]] == p[i + 1]
  }

  ghost predicate PathFromTo(w: Waits, a: Tid, p: seq<Tid>, b: Tid) {
    IsPath(w, p) && p[0] == a && p[|p| - 1] == b
  }

  ghost predicate Reach(w: Waits, a: Tid, b: Tid) {
    exists p :: PathFromTo(w, a, p, b)
  }

  ghost predicate Acyclic(w: Waits) {
    forall a, p :: PathFromTo(w, a, p, a) ==> |p| == 1
  }

  lemma ReachSelf(w: Waits, a: Tid)
    ensures Reach(w, a, a)
  {
    assert PathFromTo(w, a, [a], a);
  }

  /** A thread waits for at most one other, so whatever lies beyond `a` lies beyond its successor. */
  lemma ReachNext(w: Waits, a: Tid, b: Tid)
    requires a != b
    ensures Reach(w, a, b) <==> a in w && Reach(w, w[a], b)
  {
    if Reach(w, a, b) {
      var p :| PathFromTo(w, a, p, b);
      assert |p| > 1;
      assert PathFromTo(w, w[a], p[1..], b);
    }
    if a in w && Reach(w, w[a], b) {
      var p :| PathFromTo(w, w[a], p, b);
      assert PathFromTo(w, a, [a] + p, b);
    }
  }

  lemma PathNodesDistinct(w: Waits, p: seq<Tid>, i: nat, j: nat)
    requires Acyclic(w) && IsPath(w, p) && i < j < |p|
    ensures p[i] != p[j]
  {
    var q := p[i..j + 1];
    assert IsPath(w, q);
    if p[i] == p[j] { assert PathFromTo(w, p[i], q, p[i]); }
  }

  lemma PathIsSimple(w: Waits, path: seq<Tid>, th: Tid)
    requires Acyclic(w) && IsPath(w, path + [th])
    ensures forall i, j :: 0 <= i < j < |path| ==> path[i] != path[j]
    ensures forall x :: x in path ==> x != th && x in w
  {
    var q := path + [th];
    forall i, j | 0 <= i < j < |path|
      ensures path[i] != path[j]
    {
      PathNodesDistinct(w, q, i, j);
      assert q[i] == path[i] && q[j] == path[j];
    }
    forall i | 0 <= i < |path|
      ensures path[i] != th && path[i] in w
    {
      PathNodesDistinct(w, q, i, |path|);
      assert q[i] == path[i];
    }
  }

  ghost predicate Subgraph(w2: Waits, w: Waits) {
    forall t :: t in w2.Keys ==> t in w.Keys && w[t] == w2[t]
  }

  lemma PathInSupergraph(w: Waits, w2: Waits, p: seq<Tid>)
    requires Subgraph(w2, w) && IsPath(w2, p)
    ensures IsPath(w, p)
  {
    forall i | 0 <= i < |p| - 1
      ensures p[i] in w && w[p[i]] == p[i + 1]
    {
      var t := p[i];
      assert t in w2.Keys && w2[t] == p[i + 1];
    }
  }

  lemma AcyclicSubgraph(w: Waits, w2: Waits)
    requires Acyclic(w) && Subgraph(w2, w)
    ensures Acyclic(w2)
  {
    forall a, p | PathFromTo(w2, a, p, a)
      ensures |p| == 1
    {
      PathInSupergraph(w, w2, p);
      assert PathFromTo(w, a, p, a);
    }
  }

  /** A new edge closes a cycle exactly if its target already reaches its source. */
  lemma {:induction false} NewEdge(w: Waits, t: Tid, t1: Tid)
    requires Acyclic(w)
    ensures Acyclic(w[t := t1]) <==> !Reach(w, t1, t)
  {
    var w2 := w[t := t1];
    if Reach(w, t1, t) {
      var p :| PathFromTo(w, t1, p, t);
      forall i | 0 <= i < |p| - 1
        ensures p[i] in w2 && w2[p[i]] == p[i + 1]
      {
        PathNodesDistinct(w, p, i, |p| - 1);
      }
      assert PathFromTo(w2, t, [t] + p, t);
    } else {
      forall a, p | PathFromTo(w2, a, p, a)
        ensures |p| == 1
      {
        if |p| > 1 { NoCycleThroughNewEdge(w, t, t1, a, p); }
      }
    }
  }

  lemma NoCycleThroughNewEdge(w: Waits, t: Tid, t1: Tid, a: Tid, p: seq<Tid>)
    requires Acyclic(w) && PathFromTo(w[t := t1], a, p, a) && |p| > 1
    ensures Reach(w, t1, t)
  {
    var w2 := w[t := t1];
    if i :| 0 <= i < |p| - 1 && p[i] == t {
      // Rotate the cycle so that it starts right behind the new edge, and stop at the first `t`.
      var q := p[i + 1..] + p[1..i + 1];
      forall k | 0 <= k < |q| - 1
        ensures q[k] in w2 && w2[q[k]] == q[k + 1]
      {
        if k < |p| - i - 2 {
          assert p[i + 1 + k] == q[k];
        } else {
          assert q[k] == if k == |p| - i - 2 then p[|p| - 1] else p[k - (|p| - i - 2)];
        }
      }
      assert PathFromTo(w2, t1, q, t);
      UpToFirst(w, t, t1, q);
    } else {
      assert PathFromTo(w, a, p, a);
    }
  }

  lemma {:induction false} UpToFirst(w: Waits, t: Tid, t1: Tid, q: seq<Tid>)
    requires IsPath(w[t := t1], q) && q[|q| - 1] == t
    ensures Reach(w, q[0], t)
    decreases |q|
  {
    if q[0] == t {
      ReachSelf(w, t);
    } else {
      UpToFirst(w, t, t1, q[1..]);
      ReachNext(w, q[0], t);
    }
  }

  lemma NewOnPath(w: Waits, path: seq<Tid>, t: Tid)
    requires Acyclic(w) && IsPath(w, path + [t])
    ensures t !in path && (set x | x in path + [t]) == (set x | x in path) + {t}
  {
    var q := path + [t];
    forall i | 0 <= i < |path|
      ensures path[i] != t
    {
      PathNodesDistinct(w, q, i, |path|);
      assert q[i] == path[i] && q[|path|] == t;
    }
    assert q[|path|] == t;
  }

  // ---------------------------------------------------------------- the thread table

  class ThreadTable {
    const live: set<Tid>
    var waiting: Waits
    var tmpNext: map<Tid, Tid>

    ghost predicate Valid()
      reads this
    {
      NoTid !in live && waiting.Keys <= live
    }

    constructor (live: set<Tid>)
      requires NoTid !in live
      ensures Valid() && waiting == map[] && this.live == live
    {
      this.live := live;
      waiting := map[];
      tmpNext := map[];
    }

    /** Follows the edges from `t1` and says whether they lead to `t2`. */
    method WouldDeadlock(t1: Tid, t2: Tid) returns (b: bool)
      requires Valid() && Acyclic(waiting) && t2 in live
      ensures b <==> Reach(waiting, t1, t2)
    {
      var t := t1;
      ghost var p: seq<Tid> := [];
      while t in live
        invariant forall x :: x in p ==> x in waiting
        invariant t in live ==> IsPath(waiting, p + [t])
        invariant Reach(waiting, t1, t2) <==> Reach(waiting, t, t2)
        invariant t !in live ==> !Reach(waiting, t, t2)
        decreases waiting.Keys - (set x | x in p), t in live
      {
        if t == t2 {
          ReachSelf(waiting, t);
          return true;
        }
        ReachNext(waiting, t, t2);
        if t in waiting {
          ghost var q := p + [t];
          if t in p {
            var i :| 0 <= i < |p| && p[i] == t;
            PathNodesDistinct(waiting, q, i, |p|);
          }
          assert q[|p|] == t && (set x | x in q) == (set x | x in p) + {t};
          p := q;
          t := waiting[t];
          if t !in live && t != t2 { ReachNext(waiting, t, t2); }
        } else {
          t := NoTid;
          ReachNext(waiting, t, t2);
        }
      }
      return false;
    }

    /** The first loop of reset_other_threads, inside the critical section: detaches every thread on the
        path from `ctxt` to the leader and remembers the path. */
    method DetachPath(th: Tid, ctxt: Tid) returns (path: seq<Tid>)
      requires Valid() && Acyclic(waiting) && Reach(waiting, ctxt, th)
      modifies `waiting, `tmpNext
      ensures Valid() && IsPath(old(waiting), path + [th]) && (path + [th])[0] == ctxt
      ensures waiting == old(waiting) - (set x | x in path)
      ensures forall i :: 0 <= i < |path| ==> path[i] in tmpNext && tmpNext[path[i]] == (path + [th])[i + 1]
    {
      path := [];
      var tmp := ctxt;
      ghost var w := waiting;
      while tmp != th
        invariant Valid() && IsPath(w, path + [tmp]) && (path + [tmp])[0] == ctxt
        invariant Reach(w, tmp, th)
        invariant waiting == w - (set x | x in path)
        invariant forall i :: 0 <= i < |path| ==> path[i] in tmpNext && tmpNext[path[i]] == (path + [tmp])[i + 1]
        decreases w.Keys - (set x | x in path)
      {
        ReachNext(w, tmp, th);
        NewOnPath(w, path, tmp);
        tmpNext := tmpNext[tmp := waiting[tmp]];
        waiting := waiting - {tmp};
        path := path + [tmp];
        tmp := tmpNext[tmp];
      }
    }

    /** One turn of the second loop, after the mutex has been released.  The graph stays acyclic exactly if the leader
        does not lead to the thread redirected. */
    method Redirect(th: Tid, tmp: Tid)
      requires Valid() && tmp in live
      modifies `waiting
      ensures Valid() && waiting == old(waiting)[tmp := th]
      ensures Acyclic(old(waiting)) ==> (Acyclic(waiting) <==> !Reach(old(waiting), th, tmp))
    {
      if Acyclic(waiting) { NewEdge(waiting, tmp, th); }
      waiting := waiting[tmp := th];
    }

    /** The second loop of reset_other_threads, if no other thread comes in between. */
    method RedirectPath(th: Tid, ctxt: Tid, path: seq<Tid>)
      requires Valid() && (path + [th])[0] == ctxt
      requires forall i, j :: 0 <= i < j < |path| ==> path[i] != path[j]
      requires forall i :: 0 <= i < |path| ==> path[i] != th && path[i] in live
      requires forall i :: 0 <= i < |path| ==> path[i] in tmpNext && tmpNext[path[i]] == (path + [th])[i + 1]
      modifies `waiting
      ensures Valid()
      ensures forall x :: x in path ==> x in waiting && waiting[x] == th
      ensures forall x :: x !in path ==> (x in waiting <==> x in old(waiting))
      ensures forall x :: x !in path && x in waiting ==> waiting[x] == old(waiting)[x]
    {
      hide Acyclic, Reach;
      var tmp := ctxt;
      ghost var i := 0;
      while tmp != th
        invariant Valid() && 0 <= i <= |path| && tmp == (path + [th])[i]
        invariant forall k :: 0 <= k < i ==> path[k] in waiting && waiting[path[k]] == th
        invariant forall x :: x !in path ==> (x in waiting <==> x in old(waiting))
        invariant forall x :: x !in path && x in waiting ==> waiting[x] == old(waiting)[x]
        decreases |path| - i
      {
        assert tmp == path[i];
        Redirect(th, tmp);
        tmp := tmpNext[tmp];
        i := i + 1;
      }
    }

    /** reset_other_threads with no other thread in between: exactly the threads on the path to the leader
        are redirected, and they all wait for the leader directly. */
    method ResetOtherThreads(th: Tid, ctxt: Tid) returns (path: seq<Tid>)
      requires Valid() && Acyclic(waiting) && Reach(waiting, ctxt, th)
      modifies `waiting, `tmpNext
      ensures Valid() && PathFromTo(old(waiting), ctxt, path + [th], th)
      ensures forall x :: x in waiting <==> x in old(waiting)
      ensures forall x :: x in waiting ==> waiting[x] == if x in path then th else old(waiting)[x]
    {
      ghost var w := waiting;
      path := DetachPath(th, ctxt);
      PathIsSimple(w, path, th);
      assert forall i :: 0 <= i < |path| ==> path[i] in path;
      RedirectPath(th, ctxt, path);
    }

    /** One turn of the waiting loop of IS_INCOMPLETE: either `t` becomes the leader, and the threads on the
        path to it are detached, or `t` starts to wait for the thread `target` that owns the table. */
    method TryToWait(t: Tid, target: Tid) returns (leads: bool, path: seq<Tid>)
      requires Valid() && Acyclic(waiting) && t in live
      modifies `waiting, `tmpNext
      ensures Valid()
      ensures leads <==> Reach(old(waiting), target, t)
      ensures leads ==> PathFromTo(old(waiting), target, path + [t], t) && waiting == old(waiting) - (set x | x in path)
      ensures !leads ==> waiting == old(waiting)[t := target] && Acyclic(waiting)
    {
      path := [];
      leads := WouldDeadlock(target, t);
      if leads {
        path := DetachPath(t, target);
      } else {
        NewEdge(waiting, t, target);
        waiting := waiting[t := target];
      }
    }
  }

  // ---------------------------------------------------------------- the walk on a cycle

  /** Where the walk of would_deadlock stands after `n` turns. */
  ghost function Walk(w: Waits, t: Tid, n: nat): Tid {
    if n == 0 then t
    else
      var u := Walk(w, t, n - 1);
      if u in w then w[u] else NoTid
  }

  /** On a cycle the walk never ends: it goes round and round. */
  lemma {:induction false} CycleTrapsWalk(w: Waits, a: Tid, p: seq<Tid>, n: nat)
    requires PathFromTo(w, a, p, a) && |p| > 1
    ensures Walk(w, a, n) in w && exists i :: 0 <= i < |p| - 1 && Walk(w, a, n) == p[i]
  {
    if n > 0 {
      CycleTrapsWalk(w, a, p, n - 1);
      var i :| 0 <= i < |p| - 1 && Walk(w, a, n - 1) == p[i];
      assert Walk(w, a, n) == p[i + 1];
      if i + 1 == |p| - 1 { assert Walk(w, a, n) == p[0]; }
    }
  }

  /** Whether the walk comes to `t2` or to a thread that does not wait. */
  ghost predicate Returns(w: Waits, t1: Tid, t2: Tid) {
    exists n: nat :: Walk(w, t1, n) == t2 || Walk(w, t1, n) == NoTid
  }

  /** From a thread on a cycle would_deadlock returns if and only if it looks for a thread on that cycle. */
  lemma ReturnsIffOnCycle(w: Waits, t1: Tid, p: seq<Tid>, t2: Tid)
    requires PathFromTo(w, t1, p, t1) && |p| > 1 && NoTid !in w
    ensures Returns(w, t1, t2) <==> t2 in p
  {
    if t2 in p {
      var i :| 0 <= i < |p| && p[i] == t2;
      WalkAlong(w, t1, p, i);
    }
    if Returns(w, t1, t2) {
      var n: nat :| Walk(w, t1, n) == t2 || Walk(w, t1, n) == NoTid;
      CycleTrapsWalk(w, t1, p, n);
    }
  }

  lemma {:induction false} WalkAlong(w: Waits, t1: Tid, p: seq<Tid>, i: nat)
    requires IsPath(w, p) && p[0] == t1 && i < |p|
    ensures Walk(w, t1, i) == p[i]
  {
    if i > 0 { WalkAlong(w, t1, p, i - 1); }
  }
}
