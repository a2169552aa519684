/** The completion protocol over whole runs: what is completed, and whether anything was still missing. */
module CompletionRuns {
  import opened Completion

  ghost predicate Live(s: Sys, x: Subgoal) {
    && x.tid in s.threads
    && 0 <= -x.pos < |s.threads[x.tid].stack|
    && s.threads[x.tid].stack[-x.pos].subgoal == x
  }

  // ---------------------------------------------------------------- steps outside the protocol

  /** A thread that is not waiting runs its program: it pushes frames, returns answers to its consumers and
      adds answers to its own incomplete tables.  Shared tables are not completed early. */
  ghost predicate Work(s: Sys, t: Tid, s2: Sys) {
    && t in s.threads && t in s2.threads
    && !s.threads[t].completing
    && s2.threads == s.threads[t := s2.threads[t]]
    && s2.done == s.done
    && var th, th2 := s.threads[t], s2.threads[t];
       && th2 == th.(stack := th2.stack)
       && |th.stack| <= |th2.stack|
       && (forall i :: 0 <= i < |th.stack| ==> th2.stack[i].subgoal == th.stack[i].subgoal)
       && (forall i :: |th.stack| <= i < |th2.stack| ==> NewFrame(s, t, i, th2.stack[i].subgoal))
       && (forall x :: Answers(s2.answers, x) != Answers(s.answers, x) ==> x.tid == t && x !in s.done)
  }

  ghost predicate NewFrame(s: Sys, t: Tid, i: int, x: Subgoal) {
    if x.tid == t then x.pos == -i && x !in s.done
    else x.tid in s.threads && (x !in s.done ==> Live(s, x))
  }

  /** A thread whose tables another thread completed leaves the protocol. */
  ghost predicate Leave(s: Sys, t: Tid, s2: Sys) {
    && t in s.threads
    && s.threads[t].completing && s.threads[t].completed
    && OnlyThread(s, t, s.threads[t].(completing := false), s2)
  }

  ghost predicate Check(s: Sys, t: Tid, s2: Sys) {
    exists leader, o :: CheckStep(s, t, leader, s2, o)
  }

  ghost predicate StepOf(s: Sys, t: Tid, s2: Sys) {
    Work(s, t, s2) || Leave(s, t, s2) || Check(s, t, s2)
  }

  ghost predicate Step(s: Sys, s2: Sys) {
    exists t :: StepOf(s, t, s2)
  }

  /** The step adds no answer in an epoch in which its thread has already waited. */
  ghost predicate EpochsRespected(s: Sys, s2: Sys) {
    forall x :: Answers(s2.answers, x) != Answers(s.answers, x) ==> x.tid in s.threads && !s.threads[x.tid].parked
  }

  // ---------------------------------------------------------------- invariant of all runs

  ghost predicate InScope(t: Tid, th: Thread, leader: int, i: int) {
    0 <= i < |th.stack| && -i <= leader && External(t, th.stack[i])
  }

  ghost predicate FramesKnown(s: Sys, t: Tid)
    requires t in s.threads
  {
    forall i :: 0 <= i < |s.threads[t].stack| ==>
      var x := s.threads[t].stack[i].subgoal;
      if x.tid == t then x.pos == -i else x.tid in s.threads && (x !in s.done ==> Live(s, x))
  }

  ghost predicate Waiting(s: Sys, t: Tid)
    requires t in s.threads
  {
    var th := s.threads[t];
    && OnePerThread(th.tdl)
    && !Names(th.tdl, t)
    && (forall i :: InScope(t, th, th.ccLeader, i) && th.stack[i].subgoal !in s.done ==>
          exists j :: 0 <= j < |th.tdl| && Guards(s, th.tdl[j].subgoal, th.stack[i].subgoal))
  }

  /** The recorded dependency `e` stands for `x`. */
  ghost predicate Guards(s: Sys, e: Subgoal, x: Subgoal) {
    e.tid == x.tid && x.pos <= e.pos && e !in s.done
  }

  ghost predicate ThreadInv(s: Sys, t: Tid)
    requires t in s.threads
  {
    var th := s.threads[t];
    && FramesKnown(s, t)
    && 1 <= th.lastAns
    && (th.completing ==>
          && TidsIn(th.tdl, s.threads.Keys)
          && 0 <= -th.ccLeader <= |th.stack|
          && if th.completed then |th.stack| == -th.ccLeader else Waiting(s, t))
  }

  ghost predicate Inv(s: Sys) {
    forall t :: t in s.threads ==> ThreadInv(s, t)
  }

  lemma InvIsWellFormed(s: Sys)
    requires Inv(s)
    ensures WellFormed(s)
  {
    forall t | t in s.threads
      ensures && (forall i :: 0 <= i < |s.threads[t].stack| ==> s.threads[t].stack[i].subgoal.tid in s.threads)
              && (s.threads[t].completing ==> TidsIn(s.threads[t].tdl, s.threads.Keys))
              && (s.threads[t].completing ==> 0 <= -s.threads[t].ccLeader <= |s.threads[t].stack|)
    {
      assert ThreadInv(s, t);
    }
  }

  /** A step that completes tables; with an empty list, those of thread `t` alone. */
  ghost predicate CompletionStep(s: Sys, t: Tid, leader: int, s2: Sys) {
    && AtCheck(s, t, leader)
    && t in s2.threads
    && var tdl := s2.threads[t].tdl;
       && Surveyed(s, t, leader, tdl, leader)
       && !SomeBusy(s, tdl) && !NewerAnswers(s, tdl) && FormSCC(t, s, tdl)
       && SetCompleted(s, t, leader, tdl, s2)
  }

  ghost predicate Completes(o: Outcome) {
    o == Alone || o == CompletedSet
  }

  lemma CompletesIsCompletionStep(s: Sys, t: Tid, leader: int, s2: Sys, o: Outcome)
    requires CheckStep(s, t, leader, s2, o) && Completes(o)
    ensures CompletionStep(s, t, leader, s2)
  {
  }

  /** The members completed together are closed: whatever incomplete table an external frame of a member
      reads is a table of a member, at or below the leader down to which that member is completed. */
  lemma CompletedSetClosed(s: Sys, t: Tid, leader: int, s2: Sys, m: Tid, i: int)
    requires Inv(s) && CompletionStep(s, t, leader, s2)
    requires m in s.threads && Member(t, s2.threads[t].tdl, m)
    requires InScope(m, s.threads[m], LeaderOf(s, t, leader, m), i)
    requires s.threads[m].stack[i].subgoal !in s.done
    ensures var x := s.threads[m].stack[i].subgoal;
            && x.tid in s.threads && Member(t, s2.threads[t].tdl, x.tid)
            && x.pos <= LeaderOf(s, t, leader, x.tid)
  {
    var tdl := s2.threads[t].tdl;
    var x := s.threads[m].stack[i].subgoal;
    assert ThreadInv(s, m);
    StepFacts(s, t, leader, s2);
    hide Inv, CompletionStep, Surveyed, FormSCC, SetCompleted, NewerAnswers, LastsExact;
    var y := x;
    if m != t {
      y := MemberGuard(s, t, leader, tdl, m, i);
    } else if x.tid != t {
      DirectlyCovered(s, t, leader, tdl, i);
    }
    if y.tid != t { CoveredMember(s, t, tdl, y); }
  }

  lemma StepFacts(s: Sys, t: Tid, leader: int, s2: Sys)
    requires CompletionStep(s, t, leader, s2)
    ensures t in s.threads && t in s2.threads
    ensures var tdl := s2.threads[t].tdl;
            TidsIn(tdl, s.threads.Keys) && !SomeBusy(s, tdl) && FormSCC(t, s, tdl) && Closed(t, s, tdl, tdl, leader) &&
            Direct(t, s.threads[t], leader, s.done, tdl)
  {
    hide FormSCC, Closed, Direct, SetCompleted, NewerAnswers, LastsExact, SomeBusy, AllRead;
  }

  /** What a waiting member reads, it has recorded, and the thread that completes it has taken over. */
  lemma MemberGuard(s: Sys, t: Tid, leader: int, tdl: seq<Dep>, m: Tid, i: int) returns (y: Subgoal)
    requires t in s.threads && m in s.threads && m != t && ThreadInv(s, m) && Names(tdl, m) &&
             TidsIn(tdl, s.threads.Keys)
    requires !SomeBusy(s, tdl) && Closed(t, s, tdl, tdl, leader) && InScope(m, s.threads[m], s.threads[m].ccLeader, i)
    requires s.threads[m].stack[i].subgoal !in s.done
    ensures y.tid == s.threads[m].stack[i].subgoal.tid && s.threads[m].stack[i].subgoal.pos <= y.pos
    ensures if y.tid == t then y.pos <= leader else Covers(tdl, y)
    ensures y.tid in s.threads
  {
    var x := s.threads[m].stack[i].subgoal;
    var k :| 0 <= k < |tdl| && tdl[k].subgoal.tid == m;
    assert s.threads[m].completing;
    var d := s.threads[m].tdl;
    var j :| 0 <= j < |d| && Guards(s, d[j].subgoal, x);
    y := d[j].subgoal;
    assert AllAbsorbed(t, d, s.done, tdl, leader);
    assert Absorbed(t, y, s.done, tdl, leader);
  }

  lemma DirectlyCovered(s: Sys, t: Tid, leader: int, tdl: seq<Dep>, i: int)
    requires t in s.threads && ThreadInv(s, t) && Direct(t, s.threads[t], leader, s.done, tdl)
    requires InScope(t, s.threads[t], leader, i) && s.threads[t].stack[i].subgoal !in s.done
    ensures Covers(tdl, s.threads[t].stack[i].subgoal) && s.threads[t].stack[i].subgoal.tid in s.threads
  {
  }

  lemma CoveredMember(s: Sys, t: Tid, tdl: seq<Dep>, y: Subgoal)
    requires TidsIn(tdl, s.threads.Keys) && Covers(tdl, y) && FormSCC(t, s, tdl)
    ensures Member(t, tdl, y.tid) && y.tid in s.threads && y.pos <= s.threads[y.tid].ccLeader
  {
    var l :| 0 <= l < |tdl| && tdl[l].subgoal.tid == y.tid && y.pos <= tdl[l].subgoal.pos;
    assert InSCC(t, s, tdl, tdl[l]);
  }

  lemma SomeMemberPops(s: Sys, t: Tid, leader: int, s2: Sys, x: Subgoal) returns (m: Tid, i: int)
    requires CompletionStep(s, t, leader, s2)
    requires x in s2.done && x !in s.done
    ensures m in s.threads && Member(t, s2.threads[t].tdl, m)
    ensures 0 <= i < |s.threads[m].stack| && -i <= LeaderOf(s, t, leader, m) && s.threads[m].stack[i].subgoal == x
  {
    var tdl := s2.threads[t].tdl;
    assert SetCompleted(s, t, leader, tdl, s2);
    m :| m in s.threads && Member(t, tdl, m) && x in FramesFrom(s.threads[m], LeaderOf(s, t, leader, m));
    i :| 0 <= i < |s.threads[m].stack| && -i <= LeaderOf(s, t, leader, m) && s.threads[m].stack[i].subgoal == x;
  }

  /** CompleteTop marks nothing of an outsider: what becomes completed is a table of a member, live, at or
      below that member's leader. */
  lemma OnlyMembersCompleted(s: Sys, t: Tid, leader: int, s2: Sys, x: Subgoal)
    requires Inv(s) && CompletionStep(s, t, leader, s2)
    requires x in s2.done && x !in s.done
    ensures Live(s, x) && Member(t, s2.threads[t].tdl, x.tid) && x.pos <= LeaderOf(s, t, leader, x.tid)
  {
    var m, i := SomeMemberPops(s, t, leader, s2, x);
    assert ThreadInv(s, m);
    if x.tid == m {
      assert x.pos == -i;
    } else {
      CompletedSetClosed(s, t, leader, s2, m, i);
    }
  }

  /** Conversely every live table of a member at or below its leader becomes completed. */
  lemma MembersCompleted(s: Sys, t: Tid, leader: int, s2: Sys, x: Subgoal)
    requires Inv(s) && CompletionStep(s, t, leader, s2)
    requires Live(s, x) && Member(t, s2.threads[t].tdl, x.tid) && x.pos <= LeaderOf(s, t, leader, x.tid)
    ensures x in s2.done
  {
    assert s.threads[x.tid].stack[-x.pos].subgoal in FramesFrom(s.threads[x.tid], LeaderOf(s, t, leader, x.tid));
  }

  /** A live table that is not completed by the step stays where it is. */
  lemma StaysLive(s: Sys, t: Tid, leader: int, s2: Sys, x: Subgoal)
    requires Inv(s) && CompletionStep(s, t, leader, s2)
    requires Live(s, x) && x !in s2.done
    ensures Live(s2, x)
  {
    var tdl := s2.threads[t].tdl;
    assert ThreadInv(s, x.tid);
    if Member(t, tdl, x.tid) {
      if LeaderOf(s, t, leader, x.tid) >= x.pos { MembersCompleted(s, t, leader, s2, x); }
      if x.tid != t {
        var k :| 0 <= k < |tdl| && tdl[k].subgoal.tid == x.tid;
        assert s.threads[x.tid].completing;
      }
    }
  }

  lemma FramesStayKnown(s: Sys, t: Tid, leader: int, s2: Sys, u: Tid)
    requires Inv(s) && CompletionStep(s, t, leader, s2) && u in s.threads && u in s2.threads && FramesKnown(s, u)
    requires |s2.threads[u].stack| <= |s.threads[u].stack| &&
             s2.threads[u].stack == s.threads[u].stack[..|s2.threads[u].stack|]
    requires s2.threads.Keys == s.threads.Keys
    ensures FramesKnown(s2, u)
  {
    hide Inv, CompletionStep, Live;
    DoneGrows(s, t, leader, s2);
    var th, th2 := s.threads[u], s2.threads[u];
    forall i | 0 <= i < |th2.stack|
      ensures var x := th2.stack[i].subgoal;
              if x.tid == u then x.pos == -i else x.tid in s2.threads && (x !in s2.done ==> Live(s2, x))
    {
      var x := th2.stack[i].subgoal;
      assert x == th.stack[i].subgoal;
      if x.tid != u && x !in s2.done { StaysLive(s, t, leader, s2, x); }
    }
  }

  lemma DoneGrows(s: Sys, t: Tid, leader: int, s2: Sys)
    requires CompletionStep(s, t, leader, s2)
    ensures s.done <= s2.done && s2.threads.Keys == s.threads.Keys && t in s.threads && t in s2.threads
  {
  }

  lemma GuardsStay(s: Sys, t: Tid, leader: int, s2: Sys, u: Tid)
    requires Inv(s) && CompletionStep(s, t, leader, s2) && u in s.threads && u in s2.threads
    requires s2.threads[u] == s.threads[u] && FramesKnown(s, u) && Waiting(s, u)
    ensures Waiting(s2, u)
  {
    hide Inv, CompletionStep;
    DoneGrows(s, t, leader, s2);
    var th := s.threads[u];
    forall i | InScope(u, th, th.ccLeader, i) && th.stack[i].subgoal !in s2.done
      ensures exists j :: 0 <= j < |th.tdl| && Guards(s2, th.tdl[j].subgoal, th.stack[i].subgoal)
    {
      var x := th.stack[i].subgoal;
      var j :| 0 <= j < |th.tdl| && Guards(s, th.tdl[j].subgoal, x);
      var e := th.tdl[j].subgoal;
      if e in s2.done {
        OnlyMembersCompleted(s, t, leader, s2, e);
        MembersCompleted(s, t, leader, s2, x);
      }
      assert Guards(s2, e, x);
    }
  }

  lemma ThreadAfter(s: Sys, t: Tid, leader: int, s2: Sys, u: Tid)
    requires CompletionStep(s, t, leader, s2) && u in s.threads && ThreadInv(s, u)
    ensures u in s2.threads && t in s2.threads && |s2.threads[u].stack| <= |s.threads[u].stack|
    ensures s2.threads[u].stack == s.threads[u].stack[..|s2.threads[u].stack|]
    ensures 1 <= s2.threads[u].lastAns && s2.threads.Keys == s.threads.Keys
    ensures s2.threads[u].completing && !s2.threads[u].completed ==> s2.threads[u] == s.threads[u]
    ensures s2.threads[u].completing ==>
              TidsIn(s2.threads[u].tdl, s2.threads.Keys) && 0 <= -s2.threads[u].ccLeader <= |s.threads[u].stack| &&
              (s2.threads[u].completed ==> |s2.threads[u].stack| == -s2.threads[u].ccLeader)
  {
    hide Surveyed, NewerAnswers, FormSCC, FramesKnown, Waiting;
    var tdl := s2.threads[t].tdl;
    if Names(tdl, u) {
      var k :| 0 <= k < |tdl| && tdl[k].subgoal.tid == u;
      assert s.threads[u].completing by { StepFacts(s, t, leader, s2); }
    }
  }

  lemma CompletingKeepsInv(s: Sys, t: Tid, leader: int, s2: Sys)
    requires Inv(s) && CompletionStep(s, t, leader, s2)
    ensures Inv(s2)
  {
    hide CompletionStep, FramesKnown, Waiting;
    DoneGrows(s, t, leader, s2);
    forall u | u in s2.threads
      ensures ThreadInv(s2, u)
    {
      assert ThreadInv(s, u);
      ThreadAfter(s, t, leader, s2, u);
      FramesStayKnown(s, t, leader, s2, u);
      if s2.threads[u].completing && !s2.threads[u].completed { GuardsStay(s, t, leader, s2, u); }
    }
  }

  lemma OthersKeepInv(s: Sys, t: Tid, s2: Sys)
    requires Inv(s) && t in s.threads && t in s2.threads
    requires s2.threads == s.threads[t := s2.threads[t]] && s2.done == s.done
    requires forall x :: x !in s.done && Live(s, x) ==> Live(s2, x)
    requires ThreadInv(s2, t)
    ensures Inv(s2)
  {
    forall u | u in s2.threads
      ensures ThreadInv(s2, u)
    {
      if u != t {
        assert ThreadInv(s, u);
        var th := s.threads[u];
        if th.completing && !th.completed {
          forall i | InScope(u, th, th.ccLeader, i) && th.stack[i].subgoal !in s2.done
            ensures exists j :: 0 <= j < |th.tdl| && Guards(s2, th.tdl[j].subgoal, th.stack[i].subgoal)
          {
            var j :| 0 <= j < |th.tdl| && Guards(s, th.tdl[j].subgoal, th.stack[i].subgoal);
            assert Guards(s2, th.tdl[j].subgoal, th.stack[i].subgoal);
          }
        }
      }
    }
  }

  lemma BlockingKeepsInv(s: Sys, t: Tid, leader: int, s2: Sys)
    requires Inv(s) && CheckStep(s, t, leader, s2, Blocked)
    ensures Inv(s2)
  {
    assert ThreadInv(s, t);
    var th := s2.threads[t];
    assert th.stack == s.threads[t].stack;
    forall i | InScope(t, th, th.ccLeader, i) && th.stack[i].subgoal !in s2.done
      ensures exists j :: 0 <= j < |th.tdl| && Guards(s2, th.tdl[j].subgoal, th.stack[i].subgoal)
    {
      var x := th.stack[i].subgoal;
      assert Covers(th.tdl, x);
      var j :| 0 <= j < |th.tdl| && th.tdl[j].subgoal.tid == x.tid && x.pos <= th.tdl[j].subgoal.pos;
      assert Guards(s2, th.tdl[j].subgoal, x);
    }
    assert forall x :: Live(s, x) ==> Live(s2, x);
    assert ThreadInv(s2, t);
    OthersKeepInv(s, t, s2);
  }

  /** Steps that leave a thread running change nothing that waiting threads rely on. */
  lemma RunningKeepsInv(s: Sys, t: Tid, s2: Sys)
    requires Inv(s) && t in s.threads && t in s2.threads
    requires s2.threads == s.threads[t := s2.threads[t]] && s2.done == s.done
    requires var th, th2 := s.threads[t], s2.threads[t];
             && !th2.completing && 1 <= th2.lastAns
             && |th.stack| <= |th2.stack|
             && (forall i :: 0 <= i < |th.stack| ==> th2.stack[i].subgoal == th.stack[i].subgoal)
             && (forall i :: |th.stack| <= i < |th2.stack| ==> NewFrame(s, t, i, th2.stack[i].subgoal))
    ensures Inv(s2)
  {
    assert ThreadInv(s, t);
    forall x | Live(s, x)
      ensures Live(s2, x)
    {
    }
    assert ThreadInv(s2, t);
    OthersKeepInv(s, t, s2);
  }

  lemma StepKeepsInv(s: Sys, s2: Sys)
    requires Inv(s) && Step(s, s2)
    ensures Inv(s2)
  {
    hide Inv, CheckStep;
    var t :| StepOf(s, t, s2);
    if leader, o :| CheckStep(s, t, leader, s2, o) {
      CheckKeepsInv(s, t, leader, s2, o);
    } else {
      OtherKeepsInv(s, t, s2);
    }
  }

  lemma CheckKeepsInv(s: Sys, t: Tid, leader: int, s2: Sys, o: Outcome)
    requires Inv(s) && CheckStep(s, t, leader, s2, o)
    ensures Inv(s2)
  {
    hide Surveyed, SetCompleted, NewerAnswers, FormSCC, SomeBusy, FramesKnown;
    assert ThreadInv(s, t);
    if Completes(o) {
      CompletesIsCompletionStep(s, t, leader, s2, o);
      CompletingKeepsInv(s, t, leader, s2);
    } else if o == Blocked {
      BlockingKeepsInv(s, t, leader, s2);
    } else {
      RunningKeepsInv(s, t, s2);
    }
  }

  lemma OtherKeepsInv(s: Sys, t: Tid, s2: Sys)
    requires Inv(s) && (Work(s, t, s2) || Leave(s, t, s2))
    ensures Inv(s2)
  {
    assert ThreadInv(s, t);
    RunningKeepsInv(s, t, s2);
  }

  // ---------------------------------------------------------------- are all answers read?

  /** The last answer epoch that a waiting thread recorded bounds what it may have missed. */
  ghost predicate ReadOrStale(s: Sys, th: Thread, f: Frame) {
    || f.read == Answers(s.answers, f.subgoal)
    || exists j :: 0 <= j < |th.tdl| && th.tdl[j].subgoal.tid == f.subgoal.tid && !UpToDate(s, th.tdl[j])
  }

  ghost predicate Recorded(s: Sys, e: Dep) {
    e.subgoal.tid in s.threads ==>
      var d := s.threads[e.subgoal.tid];
      e.last <= d.lastAns && (e.last == d.lastAns ==> d.parked)
  }

  ghost predicate FreshThread(s: Sys, t: Tid)
    requires t in s.threads
  {
    var th := s.threads[t];
    && (th.completing ==> th.parked)
    && (th.completing && !th.completed ==>
          && (forall j :: 0 <= j < |th.tdl| ==> Recorded(s, th.tdl[j]))
          && (forall i :: InScope(t, th, th.ccLeader, i) ==> ReadOrStale(s, th, th.stack[i])))
  }

  ghost predicate Fresh(s: Sys) {
    forall t :: t in s.threads ==> FreshThread(s, t)
  }

  /** No external consumer of a thread completed by the step has an answer left to read. */
  ghost predicate NothingUnread(s: Sys, t: Tid, leader: int, s2: Sys)
    requires t in s2.threads
  {
    forall m :: m in s.threads && Member(t, s2.threads[t].tdl, m) ==>
      AllRead(m, s.threads[m], LeaderOf(s, t, leader, m), s.answers)
  }

  lemma FreshCompletes(s: Sys, t: Tid, leader: int, s2: Sys)
    requires Inv(s) && Fresh(s) && CompletionStep(s, t, leader, s2)
    ensures NothingUnread(s, t, leader, s2)
  {
    var tdl := s2.threads[t].tdl;
    forall m | m in s.threads && Member(t, tdl, m)
      ensures AllRead(m, s.threads[m], LeaderOf(s, t, leader, m), s.answers)
    {
      if m != t {
        assert ThreadInv(s, m) && FreshThread(s, m);
        var k :| 0 <= k < |tdl| && tdl[k].subgoal.tid == m;
        var th := s.threads[m];
        assert th.completing;
        forall j | 0 <= j < |th.tdl|
          ensures UpToDate(s, th.tdl[j])
        {
          assert UpToDate(s, s.threads[tdl[k].subgoal.tid].tdl[j]);
        }
        forall i | InScope(m, th, th.ccLeader, i)
          ensures th.stack[i].read == Answers(s.answers, th.stack[i].subgoal)
        {
          assert ReadOrStale(s, th, th.stack[i]);
        }
      }
    }
  }

  lemma StaleStays(s: Sys, s2: Sys, th: Thread, f: Frame)
    requires ReadOrStale(s, th, f) && Answers(s2.answers, f.subgoal) == Answers(s.answers, f.subgoal)
    requires forall e :: !UpToDate(s, e) ==> !UpToDate(s2, e)
    ensures ReadOrStale(s2, th, f)
  {
    if f.read != Answers(s.answers, f.subgoal) {
      var j :| 0 <= j < |th.tdl| && th.tdl[j].subgoal.tid == f.subgoal.tid && !UpToDate(s, th.tdl[j]);
      assert !UpToDate(s2, th.tdl[j]);
    }
  }

  /** The other threads' records stay truthful when epochs only grow. */
  lemma OthersStayFresh(s: Sys, t: Tid, s2: Sys)
    requires Inv(s) && Fresh(s) && t in s.threads && s2.threads.Keys == s.threads.Keys
    requires forall u :: u in s.threads && u != t ==>
               s2.threads[u] == s.threads[u] || (s2.threads[u].completed && s2.threads[u].parked == s.threads[u].parked
                                                 && s2.threads[u].completing == s.threads[u].completing
                                                 && s2.threads[u].lastAns == s.threads[u].lastAns)
    requires var th, th2 := s.threads[t], s2.threads[t];
             th2.lastAns > th.lastAns || (th2.lastAns == th.lastAns && (th.parked ==> th2.parked))
    requires EpochsRespected(s, s2)
    requires forall x :: Answers(s2.answers, x) != Answers(s.answers, x) ==> x !in s.done && x.tid == t
    requires FreshThread(s2, t)
    ensures Fresh(s2)
  {
    forall e | !UpToDate(s, e)
      ensures !UpToDate(s2, e)
    {
    }
    forall u | u in s2.threads
      ensures FreshThread(s2, u)
    {
      if u != t {
        assert ThreadInv(s, u) && FreshThread(s, u);
        var th := s2.threads[u];
        if th.completing && !th.completed {
          forall j | 0 <= j < |th.tdl|
            ensures Recorded(s2, th.tdl[j])
          {
            assert Recorded(s, th.tdl[j]);
          }
          forall i | InScope(u, th, th.ccLeader, i)
            ensures ReadOrStale(s2, th, th.stack[i])
          {
            var x := th.stack[i].subgoal;
            assert ReadOrStale(s, th, th.stack[i]);
            if Answers(s2.answers, x) != Answers(s.answers, x) {
              var j :| 0 <= j < |th.tdl| && Guards(s, th.tdl[j].subgoal, x);
              assert Recorded(s, th.tdl[j]);
              assert !UpToDate(s, th.tdl[j]);
            } else {
              StaleStays(s, s2, th, th.stack[i]);
            }
          }
        }
      }
    }
  }

  lemma CheckKeepsFresh(s: Sys, t: Tid, leader: int, s2: Sys, o: Outcome)
    requires Inv(s) && Fresh(s) && CheckStep(s, t, leader, s2, o)
    ensures Fresh(s2)
  {
    assert ThreadInv(s, t) && FreshThread(s, t);
    var th := s2.threads[t];
    if o == Blocked {
      forall j | 0 <= j < |th.tdl|
        ensures Recorded(s2, th.tdl[j])
      {
        var d := th.tdl[j].subgoal.tid;
        assert ThreadInv(s, d) && FreshThread(s, d);
        assert th.tdl[j].last == LastSeen(s.threads[d]);
      }
      assert th.stack == s.threads[t].stack;
      forall i | InScope(t, th, th.ccLeader, i)
        ensures ReadOrStale(s2, th, th.stack[i])
      {
      }
    }
    assert FreshThread(s2, t);
    OthersStayFresh(s, t, s2);
  }

  lemma StepKeepsFresh(s: Sys, s2: Sys)
    requires Inv(s) && Fresh(s) && Step(s, s2) && EpochsRespected(s, s2)
    ensures Fresh(s2)
  {
    var t :| StepOf(s, t, s2);
    if leader, o :| CheckStep(s, t, leader, s2, o) {
      CheckKeepsFresh(s, t, leader, s2, o);
    } else {
      assert FreshThread(s, t);
      assert FreshThread(s2, t);
      OthersStayFresh(s, t, s2);
    }
  }

  // ---------------------------------------------------------------- runs

  /** No thread has started to evaluate anything. */
  ghost predicate Start(s: Sys) {
    && s.done == {}
    && forall t :: t in s.threads ==> s.threads[t] == Thread([], [], false, false, 0, 1, false)
  }

  ghost predicate Run(run: seq<Sys>) {
    && |run| > 0
    && Start(run[0])
    && forall k :: 0 <= k < |run| - 1 ==> Step(run[k], run[k + 1])
  }

  lemma StartInv(s: Sys)
    requires Start(s)
    ensures Inv(s) && Fresh(s)
  {
    forall t | t in s.threads
      ensures ThreadInv(s, t) && FreshThread(s, t)
    {
    }
  }

  lemma {:induction false} RunInv(run: seq<Sys>, k: nat)
    requires Run(run) && k < |run|
    ensures Inv(run[k])
  {
    if k == 0 {
      StartInv(run[0]);
    } else {
      RunInv(run, k - 1);
      assert Step(run[k - 1], run[k - 1 + 1]);
      StepKeepsInv(run[k - 1], run[k]);
    }
  }

  /** Every run, whatever the threads do between their critical sections: the set completed is closed. */
  lemma RunsCompleteClosedSets(run: seq<Sys>, s: Sys, t: Tid, leader: int, s2: Sys, o: Outcome, m: Tid, i: int)
    requires Run(run) && s == run[|run| - 1] && CheckStep(s, t, leader, s2, o) && Completes(o)
    requires m in s.threads && Member(t, s2.threads[t].tdl, m)
    requires InScope(m, s.threads[m], LeaderOf(s, t, leader, m), i)
    requires s.threads[m].stack[i].subgoal !in s.done
    ensures var x := s.threads[m].stack[i].subgoal;
            x.tid in s.threads && Member(t, s2.threads[t].tdl, x.tid) && x.pos <= LeaderOf(s, t, leader, x.tid)
  {
    RunInv(run, |run| - 1);
    CompletesIsCompletionStep(s, t, leader, s2, o);
    CompletedSetClosed(s, t, leader, s2, m, i);
  }

  // ---------------------------------------------------------------- how threads leave the protocol

  // The ways out of the protocol that do not start a new epoch.
  datatype Exit =
    | OlderLeader     // the thread's own leader turned out to be older
    | CompletedAlone  // it completed its SCC by itself
    | Resumed         // it resumed a suspension instead
    | CompletedOthers // it completed its SCC together with those of other threads
    | ByOthers        // another thread completed its SCC
    | Abort           // it gave up; an aborted thread does not go on

  // A state, and the way out that each thread has taken last.
  datatype Hist = Hist(sys: Sys, via: map<Tid, Exit>)

  ghost function ViaAfter(via: map<Tid, Exit>, t: Tid, o: Outcome): map<Tid, Exit> {
    match o
    case Merged => via[t := OlderLeader]
    case Alone => via[t := CompletedAlone]
    case Delayed => via[t := Resumed]
    case CompletedSet => via[t := CompletedOthers]
    case Aborted => via[t := Abort]
    case _ => via
  }

  ghost predicate CheckedStep(h: Hist, t: Tid, h2: Hist) {
    exists leader, o :: CheckStep(h.sys, t, leader, h2.sys, o) && h2.via == ViaAfter(h.via, t, o)
  }

  ghost predicate HistStepOf(h: Hist, t: Tid, h2: Hist) {
    && !(t in h.via && h.via[t] == Abort)
    && (|| (Work(h.sys, t, h2.sys) && h2.via == h.via)
        || (Leave(h.sys, t, h2.sys) && h2.via == h.via[t := ByOthers])
        || CheckedStep(h, t, h2))
  }

  ghost predicate HistStep(h: Hist, h2: Hist) {
    exists t :: HistStepOf(h, t, h2)
  }

  /** A thread that has waited adds answers in the same epoch only after it has taken one of the ways out `exits`. */
  ghost predicate Restrained(exits: set<Exit>, h: Hist, h2: Hist) {
    forall x :: Answers(h2.sys.answers, x) != Answers(h.sys.answers, x) ==>
      x.tid in h.sys.threads && (h.sys.threads[x.tid].parked ==> x.tid in h.via && h.via[x.tid] in exits)
  }

  ghost predicate HistRun(exits: set<Exit>, run: seq<Hist>) {
    && |run| > 0
    && Start(run[0].sys) && run[0].via == map[]
    && forall k :: 0 <= k < |run| - 1 ==> HistStep(run[k], run[k + 1]) && Restrained(exits, run[k], run[k + 1])
  }

  ghost predicate Reaches(exits: set<Exit>, run: seq<Hist>, h: Hist) {
    HistRun(exits, run) && h == run[|run| - 1]
  }

  ghost predicate AlwaysComplete(exits: set<Exit>) {
    forall run, h, t, leader, s2, o ::
      Reaches(exits, run, h) && CheckStep(h.sys, t, leader, s2, o) && Completes(o) ==>
          NothingUnread(h.sys, t, leader, s2)
  }

  lemma HistIsStep(h: Hist, h2: Hist)
    requires HistStep(h, h2)
    ensures Step(h.sys, h2.sys)
  {
    var t :| HistStepOf(h, t, h2);
    if CheckedStep(h, t, h2) {
      var leader, o :| CheckStep(h.sys, t, leader, h2.sys, o) && h2.via == ViaAfter(h.via, t, o);
      assert Check(h.sys, t, h2.sys);
    }
    assert StepOf(h.sys, t, h2.sys);
  }

  /** Only a thread that works adds answers, and an aborted one does not work. */
  lemma RestrainedRespects(exits: set<Exit>, h: Hist, h2: Hist)
    requires HistStep(h, h2) && Restrained(exits, h, h2) && exits <= {Abort}
    ensures EpochsRespected(h.sys, h2.sys)
  {
    var t :| HistStepOf(h, t, h2);
    forall x | Answers(h2.sys.answers, x) != Answers(h.sys.answers, x)
      ensures x.tid in h.sys.threads && !h.sys.threads[x.tid].parked
    {
      OnlyWorkAnswers(h, t, h2, x);
    }
  }

  lemma OnlyWorkAnswers(h: Hist, t: Tid, h2: Hist, x: Subgoal)
    requires HistStepOf(h, t, h2) && Answers(h2.sys.answers, x) != Answers(h.sys.answers, x)
    ensures x.tid == t
  {
    if CheckedStep(h, t, h2) {
      var leader, o :| CheckStep(h.sys, t, leader, h2.sys, o) && h2.via == ViaAfter(h.via, t, o);
    }
  }

  lemma {:induction false} HistInv(exits: set<Exit>, run: seq<Hist>, k: nat)
    requires HistRun(exits, run) && k < |run|
    ensures Inv(run[k].sys)
    ensures exits <= {Abort} ==> Fresh(run[k].sys)
  {
    if k == 0 {
      StartInv(run[0].sys);
    } else {
      HistInv(exits, run, k - 1);
      assert HistStep(run[k - 1], run[k - 1 + 1]);
      HistIsStep(run[k - 1], run[k]);
      StepKeepsInv(run[k - 1].sys, run[k].sys);
      if exits <= {Abort} {
        RestrainedRespects(exits, run[k - 1], run[k]);
        StepKeepsFresh(run[k - 1].sys, run[k].sys);
      }
    }
  }

  /** If no thread adds answers in an epoch in which it has waited, tables are completed with every answer returned. */
  lemma RestrainedCompletes(exits: set<Exit>)
    requires exits <= {Abort}
    ensures AlwaysComplete(exits)
  {
    forall run, h, t, leader, s2, o | Reaches(exits, run, h) && CheckStep(h.sys, t, leader, s2, o) && Completes(o)
      ensures NothingUnread(h.sys, t, leader, s2)
    {
      HistInv(exits, run, |run| - 1);
      CompletesIsCompletionStep(h.sys, t, leader, s2, o);
      FreshCompletes(h.sys, t, leader, s2);
    }
  }
}
