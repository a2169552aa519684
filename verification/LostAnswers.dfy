/** Answers that are never read: for each way out of the completion protocol that does not start a new epoch, a run
    in which a thread takes it, goes on to find an answer, and completes a consumer that never reads the answer. */
module LostAnswers {
  import opened Completion
  import opened CompletionRuns

  /** In all runs tables are completed with every answer returned, if and only if threads that have waited add no
      answers in the same epoch, whichever way they have left the protocol. */
  lemma CompleteIffRestrained(exits: set<Exit>)
    ensures AlwaysComplete(exits) <==> exits <= {Abort}
  {
    if exits <= {Abort} {
      RestrainedCompletes(exits);
    } else {
      var e :| e in exits && e != Abort;
      var run, h, t, s2 := LosingRun(exits, e);
      assert Completes(CompletedSet);
    }
  }

  lemma LosingRun(exits: set<Exit>, e: Exit) returns (run: seq<Hist>, h: Hist, t: Tid, s2: Sys)
    requires e in exits && e != Abort
    ensures Reaches(exits, run, h) && CheckStep(h.sys, t, 0, s2, CompletedSet) && !NothingUnread(h.sys, t, 0, s2)
  {
    match e
    case OlderLeader => run, h, t, s2 := LosingAfterMerge(exits);
    case CompletedAlone => run, h, t, s2 := LosingAfterAlone(exits);
    case Resumed => run, h, t, s2 := LosingAfterResuming(exits);
    case CompletedOthers => run, h, t, s2 := LosingAfterSet(exits);
    case ByOthers => run, h, t, s2 := LosingAfterOthers(exits);
  }

  // ---------------------------------------------------------------- states

  // Thread 1 computes A, thread 2 computes B and above it C, thread 3 computes D, or E and above it F.
  const A := Subgoal(1, 1, 0)
  const B := Subgoal(2, 2, 0)
  const C := Subgoal(3, 2, -1)
  const D := Subgoal(4, 3, 0)
  const E := Subgoal(5, 3, 0)
  const F := Subgoal(6, 3, -1)

  const Idle := Thread([], [], false, false, 0, 1, false)

  function New(stack: seq<Frame>): Thread {
    Thread(stack, [], false, false, 0, 1, false)
  }

  // A thread that has waited and goes on in the same epoch.
  function Back(stack: seq<Frame>, tdl: seq<Dep>, completed: bool): Thread {
    Thread(stack, tdl, false, completed, -1, 1, true)
  }

  function Waits(stack: seq<Frame>, tdl: seq<Dep>, leader: int): Thread {
    Thread(stack, tdl, true, false, leader, 1, true)
  }

  function On(x: Subgoal): Frame {
    Frame(x, 0)
  }

  // The state with `n` answers for B.
  function State(a: Thread, b: Thread, c: Thread, done: set<Subgoal>, n: nat): Sys {
    Sys(map[1 := a, 2 := b, 3 := c], done, map[B := n])
  }

  // ---------------------------------------------------------------- steps

  lemma OneMore(exits: set<Exit>, run: seq<Hist>, h: Hist, t: Tid, h2: Hist) returns (run2: seq<Hist>)
    requires Reaches(exits, run, h) && HistStepOf(h, t, h2) && Restrained(exits, h, h2)
    ensures Reaches(exits, run2, h2)
  {
    run2 := run + [h2];
    hide HistStepOf, Restrained, Start;
    assert HistStep(h, h2);
    forall k | 0 <= k < |run2| - 1
      ensures HistStep(run2[k], run2[k + 1]) && Restrained(exits, run2[k], run2[k + 1])
    {
      if k < |run| - 1 { assert HistStep(run[k], run[k + 1]); }
    }
  }

  lemma Begins(exits: set<Exit>) returns (run: seq<Hist>, h: Hist)
    ensures h == Hist(State(Idle, Idle, Idle, {}, 0), map[]) && Reaches(exits, run, h)
  {
    h := Hist(State(Idle, Idle, Idle, {}, 0), map[]);
    run := [h];
  }

  ghost predicate Alive(h: Hist, t: Tid) {
    t in h.via ==> h.via[t] != Abort
  }

  lemma Works(exits: set<Exit>, run: seq<Hist>, h: Hist, t: Tid, s2: Sys) returns (run2: seq<Hist>, h2: Hist)
    requires Reaches(exits, run, h) && Work(h.sys, t, s2) && Alive(h, t)
    requires s2.answers == h.sys.answers || (t in h.via && h.via[t] in exits)
    ensures h2 == Hist(s2, h.via) && Reaches(exits, run2, h2)
  {
    h2 := Hist(s2, h.via);
    hide Reaches;
    run2 := OneMore(exits, run, h, t, h2);
  }

  lemma Checks(exits: set<Exit>, run: seq<Hist>, h: Hist, t: Tid, leader: int, s2: Sys, o: Outcome)
    returns (run2: seq<Hist>, h2: Hist)
    requires Reaches(exits, run, h) && CheckStep(h.sys, t, leader, s2, o) && Alive(h, t) && s2.answers == h.sys.answers
    ensures h2 == Hist(s2, ViaAfter(h.via, t, o)) && Reaches(exits, run2, h2)
  {
    h2 := Hist(s2, ViaAfter(h.via, t, o));
    hide Reaches, CheckStep, ViaAfter;
    assert CheckedStep(h, t, h2);
    run2 := OneMore(exits, run, h, t, h2);
  }

  lemma Leaves(exits: set<Exit>, run: seq<Hist>, h: Hist, t: Tid, s2: Sys) returns (run2: seq<Hist>, h2: Hist)
    requires Reaches(exits, run, h) && Leave(h.sys, t, s2) && Alive(h, t)
    ensures h2 == Hist(s2, h.via[t := ByOthers]) && Reaches(exits, run2, h2)
  {
    h2 := Hist(s2, h.via[t := ByOthers]);
    hide Reaches;
    run2 := OneMore(exits, run, h, t, h2);
  }

  // ---------------------------------------------------------------- what is needed

  lemma OnStack(s: Sys, t: Tid, leader: int, i: nat)
    requires t in s.threads && -leader <= i < |s.threads[t].stack|
    requires s.threads[t].stack[i].subgoal.tid != t && s.threads[t].stack[i].subgoal !in s.done
    ensures Needs(s, t, leader, s.threads[t].stack[i].subgoal)
  {
    assert NeedsIn(s, t, leader, s.threads[t].stack[i].subgoal, 0);
  }

  lemma Handed(s: Sys, t: Tid, leader: int, y: Subgoal, j: nat, x: Subgoal)
    requires t in s.threads && Needs(s, t, leader, y) && y.tid in s.threads && s.threads[y.tid].completing
    requires j < |s.threads[y.tid].tdl| && s.threads[y.tid].tdl[j].subgoal == x && x !in s.done && x.tid != t
    ensures Needs(s, t, leader, x)
  {
    NeededNext(s, t, leader, y, x);
  }

  lemma Just(s: Sys, t: Tid, leader: int, tdl: seq<Dep>)
    requires t in s.threads && forall k :: 0 <= k < |tdl| ==> Needs(s, t, leader, tdl[k].subgoal)
    ensures Justified(s, t, leader, tdl, leader)
  {
  }

  // ---------------------------------------------------------------- the end of three of the runs

  const ListB: seq<Dep> := [Dep(B, 1)]
  const ListA: seq<Dep> := [Dep(A, 1)]
  const Reader := Waits([On(A), On(B)], ListB, 0)

  /** Everything that thread 2 reads has been read, and it depends on nothing but A. */
  ghost predicate Reads(stack: seq<Frame>, done: set<Subgoal>) {
    && stack != [] && stack[0] == On(B) && A !in done && B !in done
    && (exists i :: 1 <= i < |stack| && stack[i].subgoal == A)
    && forall i :: 0 <= i < |stack| && stack[i].subgoal.tid != 2 ==>
         stack[i].read == 0 && (stack[i].subgoal == A || stack[i].subgoal in done)
  }

  lemma ReaderSurvey(stack: seq<Frame>, tdl: seq<Dep>, leader: int, c: Thread, done: set<Subgoal>, n: nat)
    requires Reads(stack, done) && 0 <= -leader <= 1
    ensures Surveyed(State(Reader, Back(stack, tdl, false), c, done, n), 2, leader, ListA, 0)
  {
    hide NeedsIn, Needs, NeededSet;
    var s := State(Reader, Back(stack, tdl, false), c, done, n);
    assert ListA[0].subgoal == A && Covers(ListA, A);
    assert s.threads[1].tdl == ListB;
    var k :| 1 <= k < |stack| && stack[k].subgoal == A;
    OnStack(s, 2, leader, k);
    HeldByReader(s, leader);
    assert Answers(s.answers, A) == 0;
    forall i | 0 <= i < |stack| && -i <= leader && External(2, stack[i])
      ensures stack[i].read == Answers(s.answers, stack[i].subgoal)
    {
      assert stack[i].subgoal != B;
    }
  }

  lemma HeldByReader(s: Sys, leader: int)
    requires 2 in s.threads && 1 in s.threads && s.threads[1] == Reader && B !in s.done && Needs(s, 2, leader, A)
    ensures HeldAt(2, s, NeededSet(s, 2, leader), 0)
  {
    NeededIs(s, 2, leader, A);
    assert s.threads[1].tdl[0].subgoal == B && HandsOn(s, A, B);
  }

  lemma ReaderSCC(stack: seq<Frame>, tdl: seq<Dep>, c: Thread, done: set<Subgoal>, n: nat)
    ensures var s := State(Reader, Back(stack, tdl, false), c, done, n);
            !SomeBusy(s, ListA) && !NewerAnswers(s, ListA) && FormSCC(2, s, ListA)
  {
    var s := State(Reader, Back(stack, tdl, false), c, done, n);
    assert ListA[0].subgoal == A;
    assert s.threads[1].tdl == ListB;
  }

  /** Thread 2 completes its set together with thread 1, which has an answer of B left to read. */
  lemma Loses(stack: seq<Frame>, tdl: seq<Dep>, c: Thread, done: set<Subgoal>) returns (s2: Sys)
    requires Reads(stack, done)
    ensures var s := State(Reader, Back(stack, tdl, false), c, done, 1);
            CheckStep(s, 2, 0, s2, CompletedSet) && !NothingUnread(s, 2, 0, s2)
  {
    hide Surveyed, FormSCC, NewerAnswers, SomeBusy, Justified;
    var s := State(Reader, Back(stack, tdl, false), c, done, 1);
    ReaderSurvey(stack, tdl, 0, c, done, 1);
    ReaderSCC(stack, tdl, c, done, 1);
    s2 := Sys(map[1 := Popped(Reader, 0).(completed := true), 2 := Popped(Back(stack, ListA, false), 0), 3 := c],
              done + FramesFrom(Reader, 0) + FramesFrom(Back(stack, tdl, false), 0), s.answers);
    assert ListA[0].subgoal.tid == 1;
    assert Names(ListA, 1) && !Names(ListA, 2) && !Names(ListA, 3);
    LosesSet(s, stack, tdl, c, done, s2);
    assert Reader.stack[1] == On(B) && External(1, Reader.stack[1]);
    assert !AllRead(1, s.threads[1], LeaderOf(s, 2, 0, 1), s.answers);
    assert Member(2, s2.threads[2].tdl, 1);
  }

  lemma LosesSet(s: Sys, stack: seq<Frame>, tdl: seq<Dep>, c: Thread, done: set<Subgoal>, s2: Sys)
    requires s == State(Reader, Back(stack, tdl, false), c, done, 1) && Names(ListA, 1) && !Names(ListA, 2) &&
             !Names(ListA, 3)
    requires s2 == Sys(map[1 := Popped(Reader, 0).(completed := true), 2 := Popped(Back(stack, ListA, false), 0), 3 :=
                           c],
                       done + FramesFrom(Reader, 0) + FramesFrom(Back(stack, tdl, false), 0), s.answers)
    ensures SetCompleted(s, 2, 0, ListA, s2)
  {
    hide FramesFrom;
    assert Member(2, ListA, 1) && Member(2, ListA, 2) && !Member(2, ListA, 3);
  }

  // ---------------------------------------------------------------- leaving because of an older leader

  lemma MergeStarts()
    ensures Work(State(Idle, Idle, Idle, {}, 0), 1, State(New([On(A)]), Idle, Idle, {}, 0))
    ensures Work(State(New([On(A)]), Idle, Idle, {}, 0), 2,
                 State(New([On(A)]), New([On(B), On(C), On(A)]), Idle, {}, 0))
    ensures Work(State(New([On(A)]), New([On(B), On(C), On(A)]), Idle, {}, 0), 1,
                 State(New([On(A), On(B)]), New([On(B), On(C), On(A)]), Idle, {}, 0))
  {
    assert Live(State(New([On(A)]), Idle, Idle, {}, 0), A);
    assert Live(State(New([On(A)]), New([On(B), On(C), On(A)]), Idle, {}, 0), B);
  }

  lemma MergeWaits()
    ensures CheckStep(State(New([On(A), On(B)]), New([On(B), On(C), On(A)]), Idle, {}, 0), 2, -1,
                      State(New([On(A), On(B)]), Waits([On(B), On(C), On(A)], [Dep(A, 0)], -1), Idle, {}, 0), Blocked)
  {
    hide NeedsIn, Needs, Justified;
    var s := State(New([On(A), On(B)]), New([On(B), On(C), On(A)]), Idle, {}, 0);
    var tdl := [Dep(A, 0)];
    OnStack(s, 2, -1, 2);
    Just(s, 2, -1, tdl);
    assert tdl[0].subgoal == A && Covers(tdl, A) && !s.threads[tdl[0].subgoal.tid].completing;
  }

  lemma ReaderWaits(b: Thread, c: Thread, done: set<Subgoal>, e: Dep)
    requires b.completing && b.tdl == [e] && e.last == 0 && e.subgoal.tid in {1, 3} && b.lastAns == 1 && c.lastAns == 1
    requires A !in done && B !in done && (e.subgoal in done || (e.subgoal.tid == 1 && e.subgoal.pos <= 0))
    ensures CheckStep(State(New([On(A), On(B)]), b, c, done, 0), 1, 0, State(Reader, b, c, done, 0), Blocked)
  {
    hide NeedsIn, Needs, Justified;
    var s := State(New([On(A), On(B)]), b, c, done, 0);
    assert ListB[0].subgoal == B && Covers(ListB, B);
    OnStack(s, 1, 0, 1);
    Just(s, 1, 0, ListB);
    assert s.threads[2].tdl[0] == e && !UpToDate(s, e);
    assert State(Reader, b, c, done, 0).threads == s.threads[1 := Reader];
  }

  lemma MergeReturns()
    ensures CheckStep(State(Reader, Waits([On(B), On(C), On(A)], [Dep(A, 0)], -1), Idle, {}, 0), 2, -1,
                      State(Reader, Back([On(B), On(C), On(A)], ListA, false), Idle, {}, 0), Merged)
  {
    hide NeedsIn, Needs, NeededSet;
    var s := State(Reader, Waits([On(B), On(C), On(A)], [Dep(A, 0)], -1), Idle, {}, 0);
    assert ListA[0].subgoal == A && Covers(ListA, A);
    assert s.threads[1].tdl == ListB;
    OnStack(s, 2, -1, 2);
    HeldByReader(s, -1);
    assert Surveyed(s, 2, -1, ListA, 0);
    assert State(Reader, Back([On(B), On(C), On(A)], ListA, false), Idle, {}, 0).threads ==
           s.threads[2 := Back([On(B), On(C), On(A)], ListA, false)];
  }

  lemma FindsAnswer(stack: seq<Frame>, stack2: seq<Frame>, tdl: seq<Dep>, c: Thread, done: set<Subgoal>)
    requires stack2 == stack || stack2 == stack + [On(A)]
    requires B !in done
    ensures Work(State(Reader, Back(stack, tdl, false), c, done, 0), 2,
                 State(Reader, Back(stack2, tdl, false), c, done, 1))
  {
    var s, s2 := State(Reader, Back(stack, tdl, false), c, done, 0),
        State(Reader, Back(stack2, tdl, false), c, done, 1);
    assert Live(s, A);
    assert s2.threads == s.threads[2 := s2.threads[2]];
  }

  lemma LosingAfterMerge(exits: set<Exit>) returns (run: seq<Hist>, h: Hist, t: Tid, s2: Sys)
    requires OlderLeader in exits
    ensures Reaches(exits, run, h) && CheckStep(h.sys, t, 0, s2, CompletedSet) && !NothingUnread(h.sys, t, 0, s2)
  {
    hide Work, CheckStep, Reaches, NothingUnread;
    var stack := [On(B), On(C), On(A)];
    run, h := Begins(exits);
    MergeStarts();
    run, h := Works(exits, run, h, 1, State(New([On(A)]), Idle, Idle, {}, 0));
    run, h := Works(exits, run, h, 2, State(New([On(A)]), New(stack), Idle, {}, 0));
    run, h := Works(exits, run, h, 1, State(New([On(A), On(B)]), New(stack), Idle, {}, 0));
    MergeWaits();
    run, h := Checks(exits, run, h, 2, -1, State(New([On(A), On(B)]), Waits(stack, [Dep(A, 0)], -1), Idle, {}, 0),
                     Blocked);
    ReaderWaits(Waits(stack, [Dep(A, 0)], -1), Idle, {}, Dep(A, 0));
    run, h := Checks(exits, run, h, 1, 0, State(Reader, Waits(stack, [Dep(A, 0)], -1), Idle, {}, 0), Blocked);
    MergeReturns();
    run, h := Checks(exits, run, h, 2, -1, State(Reader, Back(stack, ListA, false), Idle, {}, 0), Merged);
    FindsAnswer(stack, stack, ListA, Idle, {});
    run, h := Works(exits, run, h, 2, State(Reader, Back(stack, ListA, false), Idle, {}, 1));
    assert stack[2].subgoal == A;
    s2 := Loses(stack, ListA, Idle, {});
    t := 2;
  }

  // ---------------------------------------------------------------- leaving alone, or with a suspension

  const StackC: seq<Frame> := [On(B), On(C), On(D)]

  lemma AloneStarts()
    ensures Work(State(Idle, Idle, Idle, {}, 0), 3, State(Idle, Idle, New([On(D)]), {}, 0))
    ensures Work(State(Idle, Idle, New([On(D)]), {}, 0), 2, State(Idle, New(StackC), New([On(D)]), {}, 0))
    ensures Work(State(Idle, New(StackC), New([On(D)]), {}, 0), 1,
                 State(New([On(A), On(B)]), New(StackC), New([On(D)]), {}, 0))
  {
    assert Live(State(Idle, Idle, New([On(D)]), {}, 0), D);
    assert Live(State(Idle, New(StackC), New([On(D)]), {}, 0), B);
  }

  lemma AloneWaits()
    ensures CheckStep(State(New([On(A), On(B)]), New(StackC), New([On(D)]), {}, 0), 2, -1,
                      State(New([On(A), On(B)]), Waits(StackC, [Dep(D, 0)], -1), New([On(D)]), {}, 0), Blocked)
  {
    hide NeedsIn, Needs, Justified;
    var s := State(New([On(A), On(B)]), New(StackC), New([On(D)]), {}, 0);
    var tdl := [Dep(D, 0)];
    OnStack(s, 2, -1, 2);
    Just(s, 2, -1, tdl);
    assert tdl[0].subgoal == D && Covers(tdl, D) && !s.threads[tdl[0].subgoal.tid].completing;
  }

  lemma DCompletes()
    ensures CheckStep(State(New([On(A), On(B)]), Waits(StackC, [Dep(D, 0)], -1), New([On(D)]), {}, 0), 3, 0,
                      State(New([On(A), On(B)]), Waits(StackC, [Dep(D, 0)], -1), Idle, {D}, 0), Alone)
  {
    var s := State(New([On(A), On(B)]), Waits(StackC, [Dep(D, 0)], -1), New([On(D)]), {}, 0);
    var th := New([On(D)]);
    assert th.stack[0].subgoal == D;
    assert FramesFrom(th, 0) == {D} by { assert D in FramesFrom(th, 0); }
    assert forall m :: Member(3, [], m) <==> m == 3;
  }

  lemma CAlone()
    ensures CheckStep(State(Reader, Waits(StackC, [Dep(D, 0)], -1), Idle, {D}, 0), 2, -1,
                      State(Reader, Back([On(B)], [], false), Idle, {C, D}, 0), Alone)
  {
    var s := State(Reader, Waits(StackC, [Dep(D, 0)], -1), Idle, {D}, 0);
    assert StackC[1].subgoal == C && StackC[2].subgoal == D;
    assert FramesFrom(Waits(StackC, [Dep(D, 0)], -1), -1) == {C, D};
    assert StackC[..1] == [On(B)];
    assert forall m :: Member(2, [], m) <==> m == 2;
  }

  lemma CResumes()
    ensures CheckStep(State(Reader, Waits(StackC, [Dep(D, 0)], -1), Idle, {D}, 0), 2, -1,
                      State(Reader, Back(StackC, [], false), Idle, {D}, 0), Delayed)
  {
    var s := State(Reader, Waits(StackC, [Dep(D, 0)], -1), Idle, {D}, 0);
    assert State(Reader, Back(StackC, [], false), Idle, {D}, 0).threads == s.threads[2 := Back(StackC, [], false)];
  }

  lemma DWaited(exits: set<Exit>) returns (run: seq<Hist>, h: Hist)
    ensures Reaches(exits, run, h) && h == Hist(State(Reader, Waits(StackC, [Dep(D, 0)], -1), Idle, {D}, 0),
                                                map[3 := CompletedAlone])
  {
    hide Work, CheckStep, Reaches;
    var w := Waits(StackC, [Dep(D, 0)], -1);
    run, h := Begins(exits);
    AloneStarts();
    run, h := Works(exits, run, h, 3, State(Idle, Idle, New([On(D)]), {}, 0));
    run, h := Works(exits, run, h, 2, State(Idle, New(StackC), New([On(D)]), {}, 0));
    run, h := Works(exits, run, h, 1, State(New([On(A), On(B)]), New(StackC), New([On(D)]), {}, 0));
    AloneWaits();
    run, h := Checks(exits, run, h, 2, -1, State(New([On(A), On(B)]), w, New([On(D)]), {}, 0), Blocked);
    DCompletes();
    run, h := Checks(exits, run, h, 3, 0, State(New([On(A), On(B)]), w, Idle, {D}, 0), Alone);
    ReaderWaits(w, Idle, {D}, Dep(D, 0));
    run, h := Checks(exits, run, h, 1, 0, State(Reader, w, Idle, {D}, 0), Blocked);
  }

  lemma LosingAfterAlone(exits: set<Exit>) returns (run: seq<Hist>, h: Hist, t: Tid, s2: Sys)
    requires CompletedAlone in exits
    ensures Reaches(exits, run, h) && CheckStep(h.sys, t, 0, s2, CompletedSet) && !NothingUnread(h.sys, t, 0, s2)
  {
    hide Work, CheckStep, Reaches, NothingUnread;
    run, h := DWaited(exits);
    CAlone();
    run, h := Checks(exits, run, h, 2, -1, State(Reader, Back([On(B)], [], false), Idle, {C, D}, 0), Alone);
    FindsAnswer([On(B)], [On(B)] + [On(A)], [], Idle, {C, D});
    run, h := Works(exits, run, h, 2, State(Reader, Back([On(B)] + [On(A)], [], false), Idle, {C, D}, 1));
    assert ([On(B)] + [On(A)])[1].subgoal == A;
    s2 := Loses([On(B)] + [On(A)], [], Idle, {C, D});
    t := 2;
  }

  lemma ResumedMerges()
    ensures var stack := StackC + [On(A)];
            CheckStep(State(Reader, Back(stack, [], false), Idle, {D}, 1), 2, -1,
                      State(Reader, Back(stack, ListA, false), Idle, {D}, 1), Merged)
  {
    hide Surveyed;
    var stack := StackC + [On(A)];
    var s := State(Reader, Back(stack, [], false), Idle, {D}, 1);
    assert stack[3].subgoal == A;
    ReaderSurvey(stack, [], -1, Idle, {D}, 1);
    assert State(Reader, Back(stack, ListA, false), Idle, {D}, 1).threads == s.threads[2 := Back(stack, ListA, false)];
  }

  lemma LosingAfterResuming(exits: set<Exit>) returns (run: seq<Hist>, h: Hist, t: Tid, s2: Sys)
    requires Resumed in exits
    ensures Reaches(exits, run, h) && CheckStep(h.sys, t, 0, s2, CompletedSet) && !NothingUnread(h.sys, t, 0, s2)
  {
    hide Work, CheckStep, Reaches, NothingUnread;
    var stack := StackC + [On(A)];
    run, h := DWaited(exits);
    CResumes();
    run, h := Checks(exits, run, h, 2, -1, State(Reader, Back(StackC, [], false), Idle, {D}, 0), Delayed);
    FindsAnswer(StackC, stack, [], Idle, {D});
    run, h := Works(exits, run, h, 2, State(Reader, Back(stack, [], false), Idle, {D}, 1));
    ResumedMerges();
    run, h := Checks(exits, run, h, 2, -1, State(Reader, Back(stack, ListA, false), Idle, {D}, 1), Merged);
    assert stack[3].subgoal == A;
    s2 := Loses(stack, ListA, Idle, {D});
    t := 2;
  }

  // ---------------------------------------------------------------- leaving together with other threads

  const StackF: seq<Frame> := [On(B), On(C), On(F)]
  const StackE: seq<Frame> := [On(E), On(F), On(C)]
  const ListBF: seq<Dep> := [Dep(B, 1), Dep(F, 1)]
  const ReaderF := Waits([On(A), On(B)], ListBF, 0)
  const ListF: seq<Dep> := [Dep(F, 1)]
  const ListC: seq<Dep> := [Dep(C, 1)]

  lemma SetStarts()
    ensures Work(State(Idle, Idle, Idle, {}, 0), 3, State(Idle, Idle, New([On(E), On(F)]), {}, 0))
    ensures Work(State(Idle, Idle, New([On(E), On(F)]), {}, 0), 2, State(Idle, New(StackF), New([On(E), On(F)]), {}, 0))
  {
    assert Live(State(Idle, Idle, New([On(E), On(F)]), {}, 0), F);
  }

  lemma SetGoesOn()
    ensures Work(State(Idle, New(StackF), New([On(E), On(F)]), {}, 0), 3, State(Idle, New(StackF), New(StackE), {}, 0))
    ensures Work(State(Idle, New(StackF), New(StackE), {}, 0), 1,
                 State(New([On(A), On(B)]), New(StackF), New(StackE), {}, 0))
  {
    assert Live(State(Idle, New(StackF), New([On(E), On(F)]), {}, 0), C);
    assert Live(State(Idle, New(StackF), New(StackE), {}, 0), B);
  }

  lemma SetStarted(exits: set<Exit>) returns (run: seq<Hist>, h: Hist)
    ensures h == Hist(State(New([On(A), On(B)]), New(StackF), New(StackE), {}, 0), map[]) && Reaches(exits, run, h)
  {
    hide Work, Reaches;
    run, h := Begins(exits);
    SetStarts();
    SetGoesOn();
    run, h := Works(exits, run, h, 3, State(Idle, Idle, New([On(E), On(F)]), {}, 0));
    run, h := Works(exits, run, h, 2, State(Idle, New(StackF), New([On(E), On(F)]), {}, 0));
    run, h := Works(exits, run, h, 3, State(Idle, New(StackF), New(StackE), {}, 0));
    run, h := Works(exits, run, h, 1, State(New([On(A), On(B)]), New(StackF), New(StackE), {}, 0));
  }

  /** Thread 2 waits first: it sees thread 3 at work. */
  lemma TwoFirst()
    ensures CheckStep(State(New([On(A), On(B)]), New(StackF), New(StackE), {}, 0), 2, -1,
                      State(New([On(A), On(B)]), Waits(StackF, [Dep(F, 0)], -1), New(StackE), {}, 0), Blocked)
  {
    hide NeedsIn, Needs, Justified;
    var s := State(New([On(A), On(B)]), New(StackF), New(StackE), {}, 0);
    var tdl := [Dep(F, 0)];
    OnStack(s, 2, -1, 2);
    Just(s, 2, -1, tdl);
    assert tdl[0].subgoal == F && Covers(tdl, F) && !s.threads[tdl[0].subgoal.tid].completing;
  }

  lemma ThreeSecond()
    ensures CheckStep(State(New([On(A), On(B)]), Waits(StackF, [Dep(F, 0)], -1), New(StackE), {}, 0), 3, -1,
                      State(New([On(A), On(B)]), Waits(StackF, [Dep(F, 0)], -1), Waits(StackE, ListC, -1), {}, 0),
                          Blocked)
  {
    hide NeedsIn, Needs, Justified;
    var s := State(New([On(A), On(B)]), Waits(StackF, [Dep(F, 0)], -1), New(StackE), {}, 0);
    assert ListC[0].subgoal == C && Covers(ListC, C);
    OnStack(s, 3, -1, 2);
    Just(s, 3, -1, ListC);
    assert s.threads[2].tdl == [Dep(F, 0)] && !UpToDate(s, s.threads[2].tdl[0]);
    assert State(New([On(A), On(B)]), Waits(StackF, [Dep(F, 0)], -1), Waits(StackE, ListC, -1), {}, 0).threads ==
           s.threads[3 := Waits(StackE, ListC, -1)];
  }

  /** Thread 3 waits first: it sees thread 2 at work. */
  lemma ThreeFirst()
    ensures CheckStep(State(New([On(A), On(B)]), New(StackF), New(StackE), {}, 0), 3, -1,
                      State(New([On(A), On(B)]), New(StackF), Waits(StackE, [Dep(C, 0)], -1), {}, 0), Blocked)
  {
    hide NeedsIn, Needs, Justified;
    var s := State(New([On(A), On(B)]), New(StackF), New(StackE), {}, 0);
    var tdl := [Dep(C, 0)];
    OnStack(s, 3, -1, 2);
    Just(s, 3, -1, tdl);
    assert tdl[0].subgoal == C && Covers(tdl, C) && !s.threads[tdl[0].subgoal.tid].completing;
  }

  lemma TwoSecond()
    ensures CheckStep(State(New([On(A), On(B)]), New(StackF), Waits(StackE, [Dep(C, 0)], -1), {}, 0), 2, -1,
                      State(New([On(A), On(B)]), Waits(StackF, ListF, -1), Waits(StackE, [Dep(C, 0)], -1), {}, 0),
                          Blocked)
  {
    hide NeedsIn, Needs, Justified;
    var s := State(New([On(A), On(B)]), New(StackF), Waits(StackE, [Dep(C, 0)], -1), {}, 0);
    assert ListF[0].subgoal == F && Covers(ListF, F);
    OnStack(s, 2, -1, 2);
    Just(s, 2, -1, ListF);
    assert s.threads[3].tdl == [Dep(C, 0)] && !UpToDate(s, s.threads[3].tdl[0]);
    assert State(New([On(A), On(B)]), Waits(StackF, ListF, -1), Waits(StackE, [Dep(C, 0)], -1), {}, 0).threads ==
           s.threads[2 := Waits(StackF, ListF, -1)];
  }

  /** Thread 1 waits, depending on both; one of them has not seen the other wait yet. */
  lemma OneThird(f: int, c: int)
    requires f in {0, 1} && c in {0, 1} && (f == 0 || c == 0)
    ensures CheckStep(State(New([On(A), On(B)]), Waits(StackF, [Dep(F, f)], -1),
                            Waits(StackE, [Dep(C, c)], -1), {}, 0), 1, 0,
                      State(ReaderF, Waits(StackF, [Dep(F, f)], -1), Waits(StackE, [Dep(C, c)], -1), {}, 0), Blocked)
  {
    hide NeedsIn, Needs, Justified;
    var w2, w3 := Waits(StackF, [Dep(F, f)], -1), Waits(StackE, [Dep(C, c)], -1);
    var s := State(New([On(A), On(B)]), w2, w3, {}, 0);
    assert ListBF[0].subgoal == B && ListBF[1].subgoal == F && Covers(ListBF, B) && Covers(ListBF, F) &&
           Covers(ListBF, C);
    OnStack(s, 1, 0, 1);
    Handed(s, 1, 0, B, 0, F);
    Just(s, 1, 0, ListBF);
    assert s.threads[2].tdl[0] == Dep(F, f) && s.threads[3].tdl[0] == Dep(C, c);
    assert f == 0 ==> !UpToDate(s, s.threads[ListBF[0].subgoal.tid].tdl[0]);
    assert c == 0 ==> !UpToDate(s, s.threads[ListBF[1].subgoal.tid].tdl[0]);
    assert State(ReaderF, w2, w3, {}, 0).threads == s.threads[1 := ReaderF];
  }

  lemma TwoFrames()
    ensures FramesFrom(Waits(StackF, [Dep(F, 0)], -1), -1) == {C, F} &&
            FramesFrom(Waits(StackF, ListF, -1), -1) == {C, F}
    ensures FramesFrom(Waits(StackE, ListC, -1), -1) == {F, C} &&
            FramesFrom(Waits(StackE, [Dep(C, 0)], -1), -1) == {F, C}
    ensures StackF[..1] == [On(B)] && StackE[..1] == [On(E)]
  {
    assert StackF[1].subgoal == C && StackF[2].subgoal == F;
    assert StackE[1].subgoal == F && StackE[2].subgoal == C;
  }

  /** Thread 2 completes C together with F of thread 3. */
  lemma TwoSurveyed()
    ensures Surveyed(State(ReaderF, Waits(StackF, [Dep(F, 0)], -1), Waits(StackE, ListC, -1), {}, 0), 2, -1, ListF, -1)
  {
    hide NeedsIn, Needs, Justified;
    var s := State(ReaderF, Waits(StackF, [Dep(F, 0)], -1), Waits(StackE, ListC, -1), {}, 0);
    assert ListF[0].subgoal == F && Covers(ListF, F) && ListC[0] == Dep(C, 1);
    assert s.threads[3].tdl == ListC;
    OnStack(s, 2, -1, 2);
    Just(s, 2, -1, ListF);
    TwoFrames();
    assert Names(ListF, 3) && !Names(ListF, 1) && !Names(ListF, 2);
    assert Member(2, ListF, 2) && Member(2, ListF, 3) && !Member(2, ListF, 1);
  }

  lemma TwoCompletes()
    ensures CheckStep(State(ReaderF, Waits(StackF, [Dep(F, 0)], -1), Waits(StackE, ListC, -1), {}, 0), 2, -1,
                      State(ReaderF, Back([On(B)], ListF, false), Thread([On(E)], ListC, true, true, -1, 1, true),
                            {C, F}, 0),
                      CompletedSet)
  {
    hide Surveyed;
    var s := State(ReaderF, Waits(StackF, [Dep(F, 0)], -1), Waits(StackE, ListC, -1), {}, 0);
    TwoSurveyed();
    assert ListF[0].subgoal == F && Covers(ListF, F) && ListC[0] == Dep(C, 1);
    assert s.threads[3].tdl == ListC;
    TwoFrames();
    assert Names(ListF, 3) && !Names(ListF, 1) && !Names(ListF, 2);
    assert Member(2, ListF, 2) && Member(2, ListF, 3) && !Member(2, ListF, 1);
  }

  /** Thread 3 completes F together with C of thread 2. */
  lemma ThreeSurveyed()
    ensures Surveyed(State(ReaderF, Waits(StackF, ListF, -1), Waits(StackE, [Dep(C, 0)], -1), {}, 0), 3, -1, ListC, -1)
  {
    hide NeedsIn, Needs, Justified;
    var s := State(ReaderF, Waits(StackF, ListF, -1), Waits(StackE, [Dep(C, 0)], -1), {}, 0);
    assert ListC[0].subgoal == C && Covers(ListC, C) && ListF[0] == Dep(F, 1);
    assert s.threads[2].tdl == ListF;
    OnStack(s, 3, -1, 2);
    Just(s, 3, -1, ListC);
    TwoFrames();
    assert Names(ListC, 2) && !Names(ListC, 1) && !Names(ListC, 3);
    assert Member(3, ListC, 2) && Member(3, ListC, 3) && !Member(3, ListC, 1);
  }

  lemma ThreeCompletes()
    ensures CheckStep(State(ReaderF, Waits(StackF, ListF, -1), Waits(StackE, [Dep(C, 0)], -1), {}, 0), 3, -1,
                      State(ReaderF, Thread([On(B)], ListF, true, true, -1, 1, true), Back([On(E)], ListC, false),
                            {C, F}, 0),
                      CompletedSet)
  {
    hide Surveyed;
    var s := State(ReaderF, Waits(StackF, ListF, -1), Waits(StackE, [Dep(C, 0)], -1), {}, 0);
    ThreeSurveyed();
    assert ListC[0].subgoal == C && Covers(ListC, C) && ListF[0] == Dep(F, 1);
    assert s.threads[2].tdl == ListF;
    TwoFrames();
    assert Names(ListC, 2) && !Names(ListC, 1) && !Names(ListC, 3);
    assert Member(3, ListC, 2) && Member(3, ListC, 3) && !Member(3, ListC, 1);
  }

  // Both threads are back at work on their older tables, which then come to depend on A.

  const StackBAE: seq<Frame> := [On(B), On(A), On(E)]
  const StackEA: seq<Frame> := [On(E), On(A)]
  const ListAE: seq<Dep> := [Dep(A, 1), Dep(E, 1)]
  const ListAB: seq<Dep> := [Dep(A, 1), Dep(B, 1)]

  lemma WorksOn(c2: bool, c3: bool)
    ensures Work(State(ReaderF, Back([On(B)], ListF, c2), Back([On(E)], ListC, c3), {C, F}, 0), 2,
                 State(ReaderF, Back(StackBAE, ListF, c2), Back([On(E)], ListC, c3), {C, F}, 1))
    ensures Work(State(ReaderF, Back(StackBAE, ListF, c2), Back([On(E)], ListC, c3), {C, F}, 1), 3,
                 State(ReaderF, Back(StackBAE, ListF, c2), Back(StackEA, ListC, c3), {C, F}, 1))
  {
    var s := State(ReaderF, Back([On(B)], ListF, c2), Back([On(E)], ListC, c3), {C, F}, 0);
    var s1 := State(ReaderF, Back(StackBAE, ListF, c2), Back([On(E)], ListC, c3), {C, F}, 1);
    var s2 := State(ReaderF, Back(StackBAE, ListF, c2), Back(StackEA, ListC, c3), {C, F}, 1);
    assert Live(s, A) && Live(s, E) && Live(s1, A);
    assert s1.threads == s.threads[2 := s1.threads[2]] && s2.threads == s1.threads[3 := s2.threads[3]];
  }

  lemma ThreeWaits(c2: bool, c3: bool)
    ensures CheckStep(State(ReaderF, Back(StackBAE, ListF, c2), Back(StackEA, ListC, c3), {C, F}, 1), 3, 0,
                      State(ReaderF, Back(StackBAE, ListF, c2), Waits(StackEA, [Dep(A, 1), Dep(B, 0)], 0), {C, F}, 1),
                          Blocked)
  {
    hide NeedsIn, Needs, Justified;
    var s := State(ReaderF, Back(StackBAE, ListF, c2), Back(StackEA, ListC, c3), {C, F}, 1);
    var tdl := [Dep(A, 1), Dep(B, 0)];
    assert tdl[0].subgoal == A && tdl[1].subgoal == B && Covers(tdl, A) && Covers(tdl, B);
    OnStack(s, 3, 0, 1);
    Handed(s, 3, 0, A, 0, B);
    Just(s, 3, 0, tdl);
    assert s.threads[1].tdl == ListBF && !s.threads[tdl[1].subgoal.tid].completing;
    assert State(ReaderF, Back(StackBAE, ListF, c2), Waits(StackEA, tdl, 0), {C, F}, 1).threads ==
           s.threads[3 := Waits(StackEA, tdl, 0)];
  }

  lemma TwoWaits(c2: bool)
    ensures CheckStep(State(ReaderF, Back(StackBAE, ListF, c2), Waits(StackEA, [Dep(A, 1), Dep(B, 0)], 0), {C, F}, 1),
                      2, 0,
                      State(ReaderF, Waits(StackBAE, ListAE, 0), Waits(StackEA, [Dep(A, 1), Dep(B, 0)], 0), {C, F}, 1),
                          Blocked)
  {
    hide NeedsIn, Needs, Justified;
    var s := State(ReaderF, Back(StackBAE, ListF, c2), Waits(StackEA, [Dep(A, 1), Dep(B, 0)], 0), {C, F}, 1);
    assert ListAE[0].subgoal == A && ListAE[1].subgoal == E && Covers(ListAE, A) && Covers(ListAE, E);
    OnStack(s, 2, 0, 1);
    OnStack(s, 2, 0, 2);
    Just(s, 2, 0, ListAE);
    assert s.threads[1].tdl == ListBF && s.threads[3].tdl == [Dep(A, 1), Dep(B, 0)];
    assert !UpToDate(s, s.threads[ListAE[1].subgoal.tid].tdl[1]);
    assert State(ReaderF, Waits(StackBAE, ListAE, 0), Waits(StackEA, [Dep(A, 1), Dep(B, 0)], 0), {C, F}, 1).threads ==
           s.threads[2 := Waits(StackBAE, ListAE, 0)];
  }

  const Last := State(ReaderF, Waits(StackBAE, ListAE, 0), Waits(StackEA, [Dep(A, 1), Dep(B, 0)], 0), {C, F}, 1)

  lemma LastSurvey()
    ensures Surveyed(Last, 3, 0, ListAB, 0) && !SomeBusy(Last, ListAB) && !NewerAnswers(Last, ListAB)
  {
    hide NeedsIn, Needs, Justified;
    assert ListAB[0].subgoal == A && ListAB[1].subgoal == B && Covers(ListAB, A) && Covers(ListAB, B);
    OnStack(Last, 3, 0, 1);
    Handed(Last, 3, 0, A, 0, B);
    Just(Last, 3, 0, ListAB);
    assert Last.threads[1].tdl == ListBF && Last.threads[2].tdl == ListAE;
  }

  lemma LastSCC()
    ensures FormSCC(3, Last, ListAB)
  {
    assert ListAB[0].subgoal == A && ListAB[1].subgoal == B;
    assert Last.threads[1].tdl == ListBF && Last.threads[2].tdl == ListAE;
    assert ListBF[0].subgoal == B && ListBF[1].subgoal == F && ListAE[0].subgoal == A && ListAE[1].subgoal == E;
    assert Names(ListBF, 2) && Names(ListAE, 1) && Names(ListAB, 1) && Names(ListAB, 2);
  }

  /** Thread 3 completes everything, though thread 1 has an answer of B left to read. */
  lemma AllLose() returns (s2: Sys)
    ensures CheckStep(Last, 3, 0, s2, CompletedSet) && !NothingUnread(Last, 3, 0, s2)
  {
    hide Surveyed, FormSCC, NewerAnswers, SomeBusy, Justified;
    LastSurvey();
    LastSCC();
    var th1, th2, th3 := Last.threads[1], Last.threads[2], Last.threads[3];
    s2 := Sys(map[1 := Popped(th1, 0).(completed := true), 2 := Popped(th2, 0).(completed := true),
                  3 := Popped(th3.(tdl := ListAB, completing := false), 0)],
              Last.done + FramesFrom(th1, 0) + FramesFrom(th2, 0) + FramesFrom(th3, 0), Last.answers);
    assert ListAB[0].subgoal.tid == 1 && ListAB[1].subgoal.tid == 2;
    assert Names(ListAB, 1) && Names(ListAB, 2) && !Names(ListAB, 3);
    AllCompleted(s2);
    assert th1.stack[1] == On(B) && External(1, th1.stack[1]);
    assert !AllRead(1, th1, LeaderOf(Last, 3, 0, 1), Last.answers);
    assert Member(3, s2.threads[3].tdl, 1);
  }

  lemma AllCompleted(s2: Sys)
    requires Names(ListAB, 1) && Names(ListAB, 2) && !Names(ListAB, 3)
    requires var th1, th2, th3 := Last.threads[1], Last.threads[2], Last.threads[3];
             s2 == Sys(map[1 := Popped(th1, 0).(completed := true), 2 := Popped(th2, 0).(completed := true),
                           3 := Popped(th3.(tdl := ListAB, completing := false), 0)],
                       Last.done + FramesFrom(th1, 0) + FramesFrom(th2, 0) + FramesFrom(th3, 0), Last.answers)
    ensures SetCompleted(Last, 3, 0, ListAB, s2)
  {
    hide FramesFrom;
    assert Member(3, ListAB, 1) && Member(3, ListAB, 2) && Member(3, ListAB, 3);
  }

  /** From the moment on when both threads are back at work. */
  lemma LosesFrom(exits: set<Exit>, run0: seq<Hist>, h0: Hist, c2: bool, c3: bool)
    returns (run: seq<Hist>, h: Hist, t: Tid, s2: Sys)
    requires Reaches(exits, run0, h0) && h0.sys == State(ReaderF, Back([On(B)], ListF, c2), Back([On(E)], ListC, c3),
                                                         {C, F}, 0)
    requires Alive(h0, 3) && Alive(h0, 2) && 2 in h0.via && h0.via[2] in exits
    ensures Reaches(exits, run, h) && CheckStep(h.sys, t, 0, s2, CompletedSet) && !NothingUnread(h.sys, t, 0, s2)
  {
    hide Work, CheckStep, Reaches, NothingUnread;
    WorksOn(c2, c3);
    run, h := Works(exits, run0, h0, 2, State(ReaderF, Back(StackBAE, ListF, c2), Back([On(E)], ListC, c3), {C, F}, 1));
    run, h := Works(exits, run, h, 3, State(ReaderF, Back(StackBAE, ListF, c2), Back(StackEA, ListC, c3), {C, F}, 1));
    ThreeWaits(c2, c3);
    run, h := Checks(exits, run, h, 3, 0,
                     State(ReaderF, Back(StackBAE, ListF, c2), Waits(StackEA, [Dep(A, 1), Dep(B, 0)], 0), {C, F}, 1),
                         Blocked);
    TwoWaits(c2);
    run, h := Checks(exits, run, h, 2, 0, Last, Blocked);
    s2 := AllLose();
    t := 3;
  }

  lemma LosingAfterSet(exits: set<Exit>) returns (run: seq<Hist>, h: Hist, t: Tid, s2: Sys)
    requires CompletedOthers in exits
    ensures Reaches(exits, run, h) && CheckStep(h.sys, t, 0, s2, CompletedSet) && !NothingUnread(h.sys, t, 0, s2)
  {
    hide Work, CheckStep, Reaches, NothingUnread;
    var one, w2, w3 := New([On(A), On(B)]), Waits(StackF, [Dep(F, 0)], -1), Waits(StackE, ListC, -1);
    run, h := SetStarted(exits);
    TwoFirst();
    run, h := Checks(exits, run, h, 2, -1, State(one, w2, New(StackE), {}, 0), Blocked);
    ThreeSecond();
    run, h := Checks(exits, run, h, 3, -1, State(one, w2, w3, {}, 0), Blocked);
    OneThird(0, 1);
    run, h := Checks(exits, run, h, 1, 0, State(ReaderF, w2, w3, {}, 0), Blocked);
    TwoCompletes();
    var s := State(ReaderF, Back([On(B)], ListF, false), Thread([On(E)], ListC, true, true, -1, 1, true), {C, F}, 0);
    run, h := Checks(exits, run, h, 2, -1, s, CompletedSet);
    var s1 := State(ReaderF, Back([On(B)], ListF, false), Back([On(E)], ListC, true), {C, F}, 0);
    assert Leave(s, 3, s1) by { assert s1.threads == s.threads[3 := Back([On(E)], ListC, true)]; }
    run, h := Leaves(exits, run, h, 3, s1);
    run, h, t, s2 := LosesFrom(exits, run, h, false, true);
  }

  lemma LosingAfterOthers(exits: set<Exit>) returns (run: seq<Hist>, h: Hist, t: Tid, s2: Sys)
    requires ByOthers in exits
    ensures Reaches(exits, run, h) && CheckStep(h.sys, t, 0, s2, CompletedSet) && !NothingUnread(h.sys, t, 0, s2)
  {
    hide Work, CheckStep, Reaches, NothingUnread;
    var one, w2, w3 := New([On(A), On(B)]), Waits(StackF, ListF, -1), Waits(StackE, [Dep(C, 0)], -1);
    run, h := SetStarted(exits);
    ThreeFirst();
    run, h := Checks(exits, run, h, 3, -1, State(one, New(StackF), w3, {}, 0), Blocked);
    TwoSecond();
    run, h := Checks(exits, run, h, 2, -1, State(one, w2, w3, {}, 0), Blocked);
    OneThird(1, 0);
    run, h := Checks(exits, run, h, 1, 0, State(ReaderF, w2, w3, {}, 0), Blocked);
    ThreeCompletes();
    var s := State(ReaderF, Thread([On(B)], ListF, true, true, -1, 1, true), Back([On(E)], ListC, false), {C, F}, 0);
    run, h := Checks(exits, run, h, 3, -1, s, CompletedSet);
    var s1 := State(ReaderF, Back([On(B)], ListF, true), Back([On(E)], ListC, false), {C, F}, 0);
    assert Leave(s, 2, s1) by { assert s1.threads == s.threads[2 := Back([On(B)], ListF, true)]; }
    run, h := Leaves(exits, run, h, 2, s1);
    run, h, t, s2 := LosesFrom(exits, run, h, true, false);
  }
}
