/** Whole runs of the move generator: up to 123 moves always take effect as one simultaneous assignment, and from
    124 moves on there are moves that do not, because the ring wraps round and its scans see nothing. */
module MoveRuns {
  import opened CodeQueue
  import opened Moves

  ghost predicate Owned(w: Work, taken0: set<int>, free: seq<int>) {
    && free != [] && free[0] == w.first && FreeList(w.stat, w.first, free) && taken0 <= InUse(free)
    && forall x :: x in taken0 && 0 <= x < |w.stat| ==> w.stat[x] != TVar
  }

  /** `n` moves between registers in use have been put in an empty ring. */
  ghost predicate Starts(n: nat, taken0: set<int>, w: Work) {
    && |w.q| == n && w.bottom == QueueStart && w.top == (QueueStart + n) % QueueSize && w.code == []
    && Loadable(w.q, taken0) && exists free :: Owned(w, taken0, free)
  }

  ghost predicate AlwaysRight(n: nat) {
    forall taken0, w, w2 :: Starts(n, taken0, w) && Ends(w, w2) ==> Simultaneous(w.q, taken0, w2.code)
  }

  // The most moves for which the ring cannot wrap round while some are put off.
  const MaxMoves: nat := 123

  /** The generated code is right for all queues of `n` moves exactly if there are at most 123 of them. */
  lemma RightIffShort(n: nat)
    requires n < QueueSize
    ensures AlwaysRight(n) <==> n <= MaxMoves
  {
    if n <= MaxMoves {
      forall taken0, w, w2 | Starts(n, taken0, w) && Ends(w, w2)
        ensures Simultaneous(w.q, taken0, w2.code)
      {
        ShortIsRight(n, taken0, w, w2);
      }
    } else {
      var w2 := LongGoesWrong(n);
    }
  }

  // ---------------------------------------------------------------- few moves

  lemma ShortIsRight(n: nat, taken0: set<int>, w: Work, w2: Work)
    requires n <= MaxMoves && Starts(n, taken0, w) && Ends(w, w2)
    ensures Simultaneous(w.q, taken0, w2.code)
  {
    var free :| Owned(w, taken0, free);
    var j: nat :| Ran(w, j) == Some(w2);
    StartSane(w, taken0, free);
    StartWaiting(w.q, taken0);
    ShortGoes(w.q, taken0, w, n, free, 0, j, w2);
  }

  /** With `p` moves put off so far the ring has not wrapped round. */
  lemma {:induction false} ShortGoes(q0: seq<Move>, taken0: set<int>, w: Work, k: nat, free: seq<int>, p: nat, j: nat,
                                     w2: Work)
    requires |q0| <= MaxMoves && Sane(taken0, w, k, free) && AlwaysOnTheWay(q0, taken0, w.code, w.q)
    requires QueueStart <= w.bottom <= w.top == QueueStart + |q0| + p
    requires p + k <= |q0| && (q0 != [] ==> p < |q0|)
    requires Ran(w, j) == Some(w2) && w2.q == []
    ensures Simultaneous(q0, taken0, w2.code)
    decreases j
  {
    hide AlwaysOnTheWay, Simultaneous, Held, FreeList, Next;
    if w.q == [] {
      AllDone(q0, taken0, w.code);
    } else {
      var n := Next(w).value;
      NextOnTheWay(q0, taken0, w, k, free);
      var free2 := NextSane(taken0, w, k, free);
      ShortGoes(q0, taken0, n, Less(k), free2, if |n.q| == |w.q| then p + 1 else p, j - 1, w2);
    }
  }

  // ---------------------------------------------------------------- what later steps leave alone

  /** A register that nothing is still to be loaded into keeps its value. */
  lemma NextLeaves(taken0: set<int>, w: Work, k: nat, free: seq<int>, x: int, r: Regs)
    requires w.q != [] && Sane(taken0, w, k, free) && Next(w).Some? && x in taken0 && !IsTarget(w.q, x)
    ensures !IsTarget(Next(w).value.q, x) && Exec(Next(w).value.code, r)(x) == Exec(w.code, r)(x)
  {
    var m, rest, w2 := w.q[0], w.q[1..], Next(w).value;
    RestOf(w.q);
    InUseRange(w.stat, free);
    hide FreeList, InUse, IsTarget, IsSource;
    WithLast(rest, m);
    WithLast(rest, Move(MovReg, w.first, m.target));
    ExecAdd(w.code, m, r, x);
    ExecAdd(w.code, Move(MovReg, m.arg, w.first), r, x);
  }

  lemma {:induction false} LaterLeaves(taken0: set<int>, w: Work, k: nat, free: seq<int>, j: nat, w2: Work, x: int,
                                       r: Regs)
    requires Sane(taken0, w, k, free) && Ran(w, j) == Some(w2) && x in taken0 && !IsTarget(w.q, x)
    ensures Exec(w2.code, r)(x) == Exec(w.code, r)(x)
    decreases j
  {
    hide Sane, IsTarget, Next, Exec;
    if j > 0 && w.q != [] {
      NextLeaves(taken0, w, k, free, x, r);
      var free2 := NextSane(taken0, w, k, free);
      LaterLeaves(taken0, Next(w).value, Less(k), free2, j - 1, w2, x, r);
    }
  }

  // ---------------------------------------------------------------- runs that end

  lemma EndsLater(w: Work, w2: Work)
    requires w.q != [] && Next(w).Some? && Ends(Next(w).value, w2)
    ensures Ends(w, w2)
  {
    var j: nat :| Ran(Next(w).value, j) == Some(w2);
    assert Ran(w, j + 1) == Some(w2);
  }

  /** Until the bottom of the ring comes round, everything is carried out blindly. */
  lemma {:induction false} BlindRuns(w: Work) returns (w2: Work)
    requires w.top == 0 && 0 < w.bottom < QueueSize && w.bottom + |w.q| == QueueSize
    ensures Ends(w, w2)
    decreases |w.q|
  {
    var n := Next(w).value;
    if |w.q| == 1 {
      assert Ran(n, 0) == Some(n);
      w2 := n;
    } else {
      w2 := BlindRuns(n);
    }
    EndsLater(w, w2);
  }

  lemma {:induction false} PlainRuns(w: Work) returns (w2: Work)
    requires forall i :: 0 <= i < |w.q| ==> w.q[i].op != MovReg
    ensures Ends(w, w2)
    decreases |w.q|
  {
    if w.q == [] {
      assert Ran(w, 0) == Some(w);
      w2 := w;
    } else {
      w2 := PlainRuns(Next(w).value);
      EndsLater(w, w2);
    }
  }

  // ---------------------------------------------------------------- kinds of steps

  /** A move carried out whose source stays in use. */
  lemma Emits(w: Work)
    requires w.q != [] && (w.q[0].op == MovReg ==> w.q[0].arg != w.q[0].target)
    requires Up(w.bottom) > w.top || !IsSource(w.q[1..], w.q[0].target)
    requires GiveBack(w.stat, w.first, w.q[0].arg, TVar) == (w.stat, w.first)
    ensures Next(w) == Some(Work(w.q[1..], Up(w.bottom), w.top, w.stat, w.first, w.code + [w.q[0]]))
  {
  }

  /** A move put off whose source is saved and stays in use. */
  lemma Saved(w: Work, stat: seq<int>, first: int)
    requires w.q != [] && w.q[0].op == MovReg && w.q[0].arg != w.q[0].target
    requires Up(w.bottom) <= w.top && IsSource(w.q[1..], w.q[0].target) && IsTarget(w.q[1..], w.q[0].arg)
    requires TakeFrom(w.stat, w.first, TVar) == Some((stat, first)) &&
             GiveBack(stat, first, w.q[0].arg, TVar) == (stat, first)
    ensures Next(w) == Some(Work(w.q[1..] + [Move(MovReg, w.first, w.q[0].target)], Up(w.bottom), Up(w.top), stat,
                                 first,
                                 w.code + [Move(MovReg, w.q[0].arg, w.first)]))
  {
  }

  // ---------------------------------------------------------------- many moves

  // How many moves of the chain are put off until the top of the ring has wrapped round.
  function Offs(n: nat): nat {
    if n <= 246 then 246 - n else 0
  }

  /** The body q(a, X1, X2, .., [], []) of a clause with the head p(X1, X2, ..): a constant into register 1, every
      register into the next, and constants into the rest. */
  function Chain(n: nat): seq<Move> {
    seq(n, i => if i == 0 then Move(PutCon, 0, 1) else if i <= Offs(n) + 1 then Move(MovReg, i, i + 1)
        else Move(PutNil, 0, i + 1))
  }

  function BackAgain(n: nat, i: nat): seq<Move> {
    seq(i, l => if l == 0 then Move(PutCon, 0, 1) else Move(MovReg, n + l, l + 1))
  }

  function Saves(n: nat, i: nat): seq<Move> {
    seq(if i == 0 then 0 else i - 1, l => Move(MovReg, l + 1, n + l + 1))
  }

  function Table(n: nat, i: nat): seq<int> {
    seq(MaxRegs, x => if x <= n then NVar else if x < n + i then TVar else 0)
  }

  /** After `i` moves of the chain have been put off. */
  function ChainWork(n: nat, i: nat): Work
    requires i <= n
  {
    Work(Chain(n)[i..] + BackAgain(n, i), QueueStart + i, (QueueStart + n + i) % QueueSize, Table(n, i),
         if i == 0 then n + 1 else n + i, Saves(n, i))
  }

  ghost function Registers0(n: nat): set<int> {
    InUse([n + 1])
  }

  lemma ChainFront(n: nat, i: nat)
    requires MaxMoves < n < QueueSize && i <= Offs(n)
    ensures var q := ChainWork(n, i).q;
            |Chain(n)| == n && q[0] == Chain(n)[i] && q[1..] == Chain(n)[i + 1..] + BackAgain(n, i) &&
            q[1] == Chain(n)[i + 1]
  {
  }

  lemma ChainFirst(n: nat)
    requires MaxMoves < n < 246
    ensures Next(ChainWork(n, 0)) == Some(ChainWork(n, 1))
  {
    var w, w2 := ChainWork(n, 0), ChainWork(n, 1);
    ChainFront(n, 0);
    var rest := w.q[1..];
    assert rest[0] == Chain(n)[1] && IsSource(rest, 1);
    assert rest + [Chain(n)[0]] == w2.q;
    assert Table(n, 0) == Table(n, 1) && Saves(n, 0) == Saves(n, 1);
  }

  lemma ChainTables(n: nat, i: nat)
    requires MaxMoves < n < QueueSize && 0 < i < Offs(n)
    ensures TakeFrom(Table(n, i), n + i, TVar) == Some((Table(n, i + 1), n + i + 1))
    ensures GiveBack(Table(n, i + 1), n + i + 1, i, TVar) == (Table(n, i + 1), n + i + 1)
    ensures Saves(n, i) + [Move(MovReg, i, n + i)] == Saves(n, i + 1)
  {
    assert Table(n, i)[n + i + 1 := 0][n + i := TVar] == Table(n, i + 1);
  }

  lemma ChainRest(n: nat, i: nat)
    requires MaxMoves < n < QueueSize && 0 < i < Offs(n)
    ensures var rest := ChainWork(n, i).q[1..];
            IsSource(rest, i + 1) && IsTarget(rest, i) && rest + [Move(MovReg, n + i, i + 1)] == ChainWork(n, i + 1).q
    ensures ChainWork(n, i).q[0] == Move(MovReg, i, i + 1)
  {
    ChainFront(n, i);
    var rest := ChainWork(n, i).q[1..];
    assert rest[0] == Chain(n)[i + 1];
    assert rest[n - i - 1 + i - 1] == BackAgain(n, i)[i - 1];
    assert rest + [Move(MovReg, n + i, i + 1)] == ChainWork(n, i + 1).q;
  }

  lemma ChainParts(n: nat, i: nat)
    requires MaxMoves < n < QueueSize && 0 < i <= Offs(n)
    ensures var w := ChainWork(n, i);
            && w.bottom == QueueStart + i && w.top == (if i == Offs(n) then 0 else QueueStart + n + i) &&
               w.stat == Table(n, i)
            && w.first == n + i && w.code == Saves(n, i) && w == Work(w.q, w.bottom, w.top, w.stat, w.first, w.code)
  {
  }

  lemma ChainStep(n: nat, i: nat)
    requires MaxMoves < n < QueueSize && i < Offs(n)
    ensures Next(ChainWork(n, i)) == Some(ChainWork(n, i + 1))
  {
    if i == 0 {
      ChainFirst(n);
    } else {
      ChainLater(n, i);
    }
  }

  lemma ChainLater(n: nat, i: nat)
    requires MaxMoves < n < QueueSize && 0 < i < Offs(n)
    ensures Next(ChainWork(n, i)) == Some(ChainWork(n, i + 1))
  {
    hide Chain, BackAgain, Table, Saves, IsSource, IsTarget, TakeFrom, GiveBack, Next, ChainWork;
    ChainParts(n, i);
    ChainParts(n, i + 1);
    ChainLength(n, i);
    ChainRest(n, i);
    ChainTables(n, i);
    Saved(ChainWork(n, i), Table(n, i + 1), n + i + 1);
  }

  lemma ChainLength(n: nat, i: nat)
    requires MaxMoves < n < QueueSize && i <= Offs(n)
    ensures ChainWork(n, i).q != []
  {
  }

  lemma ChainStarts(n: nat)
    requires MaxMoves < n < QueueSize
    ensures Starts(n, Registers0(n), ChainWork(n, 0)) && Owned(ChainWork(n, 0), Registers0(n), [n + 1])
    ensures ChainWork(n, 0).q == Chain(n)
  {
    var w := ChainWork(n, 0);
    assert w.q == Chain(n);
    assert FreeList(w.stat, n + 1, [n + 1]);
    assert Owned(w, Registers0(n), [n + 1]);
  }

  lemma {:induction false} ChainSane(n: nat, i: nat) returns (k: nat, free: seq<int>)
    requires MaxMoves < n < QueueSize && i <= Offs(n)
    ensures Sane(Registers0(n), ChainWork(n, i), k, free)
  {
    if i == 0 {
      ChainStarts(n);
      k, free := n, [n + 1];
      StartSane(ChainWork(n, 0), Registers0(n), free);
    } else {
      k, free := ChainSane(n, i - 1);
      ChainStep(n, i - 1);
      hide Sane;
      assert |Chain(n)[i - 1..]| > 0;
      free := NextSane(Registers0(n), ChainWork(n, i - 1), k, free);
      k := Less(k);
    }
  }

  lemma {:induction false} ChainEnds(n: nat, i: nat, w2: Work)
    requires MaxMoves < n < QueueSize && i <= Offs(n) && Ends(ChainWork(n, i), w2)
    ensures Ends(ChainWork(n, 0), w2)
  {
    if i > 0 {
      ChainStep(n, i - 1);
      assert |Chain(n)[i - 1..]| > 0;
      EndsLater(ChainWork(n, i - 1), w2);
      ChainEnds(n, i - 1, w2);
    }
  }

  /** The two moves that the scans then fail to keep apart. */
  function Blind(n: nat): Work
    requires MaxMoves < n
  {
    var d, w := Offs(n), ChainWork(n, Offs(n));
    Work(Chain(n)[d + 2..] + BackAgain(n, d), QueueStart + d + 2, w.top, w.stat, w.first,
         w.code + [Chain(n)[d]] + [Chain(n)[d + 1]])
  }

  lemma KeptInUse(n: nat)
    requires MaxMoves < n < QueueSize
    ensures var d, w := Offs(n), ChainWork(n, Offs(n));
            GiveBack(w.stat, w.first, d, TVar) == GiveBack(w.stat, w.first, d + 1, TVar) == (w.stat, w.first)
  {
  }

  lemma BlindNext(n: nat)
    requires MaxMoves < n < QueueSize
    ensures var d, w := Offs(n), ChainWork(n, Offs(n));
            var w1 := Work(w.q[1..], QueueStart + d + 1, w.top, w.stat, w.first, w.code + [Chain(n)[d]]);
            w.q != [] && w1.q != [] && Next(w) == Some(w1) && Next(w1) == Some(Blind(n))
  {
    hide GiveBack, IsSource, IsTarget, TakeFrom, Table, Saves, BackAgain, Next;
    var d, w := Offs(n), ChainWork(n, Offs(n));
    ChainFront(n, d);
    var w1 := Work(w.q[1..], QueueStart + d + 1, w.top, w.stat, w.first, w.code + [Chain(n)[d]]);
    assert w1.q[1..] == Chain(n)[d + 2..] + BackAgain(n, d);
    ChainMoves(n, d);
    KeptInUse(n);
    hide Chain;
    Emits(w);
    Emits(w1);
  }

  lemma ChainMoves(n: nat, d: nat)
    requires d + 1 < n && d <= Offs(n)
    ensures Chain(n)[d] == (if d == 0 then Move(PutCon, 0, 1) else Move(MovReg, d, d + 1))
    ensures Chain(n)[d + 1] == Move(MovReg, d + 1, d + 2)
  {
  }

  lemma BlindSteps(n: nat) returns (k: nat, free: seq<int>)
    requires MaxMoves < n < QueueSize
    ensures Sane(Registers0(n), Blind(n), k, free)
    ensures forall w2 :: Ends(Blind(n), w2) ==> Ends(ChainWork(n, Offs(n)), w2)
  {
    var d := Offs(n);
    var w := ChainWork(n, d);
    k, free := ChainSane(n, d);
    var w1 := Work(w.q[1..], QueueStart + d + 1, w.top, w.stat, w.first, w.code + [Chain(n)[d]]);
    BlindNext(n);
    hide Sane, Next, Ends, ChainWork, Blind;
    free := NextSane(Registers0(n), w, k, free);
    free := NextSane(Registers0(n), w1, Less(k), free);
    k := Less(Less(k));
    forall w2 | Ends(Blind(n), w2)
      ensures Ends(w, w2)
    {
      EndsLater(w1, w2);
      EndsLater(w, w2);
    }
  }

  lemma BlindEnds(n: nat) returns (w2: Work)
    requires MaxMoves < n < QueueSize
    ensures Ends(Blind(n), w2)
  {
    if n <= 246 {
      w2 := BlindRuns(Blind(n));
    } else {
      w2 := PlainRuns(Blind(n));
    }
  }

  lemma {:induction false} SavesLeave(n: nat, i: nat, x: int, r: Regs)
    requires x <= n
    ensures Exec(Saves(n, i), r)(x) == r(x)
  {
    if i > 1 {
      assert Saves(n, i) == Saves(n, i - 1) + [Move(MovReg, i - 1, n + i - 1)];
      ExecAdd(Saves(n, i - 1), Move(MovReg, i - 1, n + i - 1), r, x);
      SavesLeave(n, i - 1, x, r);
    }
  }

  lemma NotQueued(n: nat)
    requires MaxMoves < n < QueueSize
    ensures !IsTarget(Blind(n).q, Offs(n) + 2)
  {
  }

  /** The second of two moves picks up what the first has just put there. */
  lemma TwoMoves(s: seq<Move>, a: Move, b: Move, r: Regs)
    requires b.op == MovReg && b.arg == a.target
    ensures Exec(s + [a] + [b], r)(b.target) == ValueOf(a, Exec(s, r))
  {
    ExecAdd(s + [a], b, r, b.target);
    ExecAdd(s, a, r, a.target);
    hide Exec;
    assert Exec(s + [a] + [b], r)(b.target) == ValueOf(b, Exec(s + [a], r));
    assert Exec(s + [a], r)(a.target) == ValueOf(a, Exec(s, r));
  }

  lemma BlindCode(n: nat)
    requires MaxMoves < n < QueueSize
    ensures var d := Offs(n);
            Blind(n).code ==
            Saves(n, d) + [if d == 0 then Move(PutCon, 0, 1) else Move(MovReg, d, d + 1)] + [Move(MovReg, d + 1, d + 2)]
  {
  }

  lemma FirstOfTwo(d: nat, a: Move, e: Regs, r: Regs)
    requires a == (if d == 0 then Move(PutCon, 0, 1) else Move(MovReg, d, d + 1)) && e(d) == r(d)
    ensures ValueOf(a, e) == if d == 0 then Con(0) else r(d)
  {
  }

  lemma WrongValue(n: nat, r: Regs)
    requires MaxMoves < n < QueueSize
    ensures Exec(Blind(n).code, r)(Offs(n) + 2) == if Offs(n) == 0 then Con(0) else r(Offs(n))
  {
    var d := Offs(n);
    var a, b := if d == 0 then Move(PutCon, 0, 1) else Move(MovReg, d, d + 1), Move(MovReg, d + 1, d + 2);
    BlindCode(n);
    SavesLeave(n, d, d, r);
    hide *;
    assert Blind(n).code == Saves(n, d) + [a] + [b];
    TwoMoves(Saves(n, d), a, b, r);
    FirstOfTwo(d, a, Exec(Saves(n, d), r), r);
  }

  lemma RightValue(n: nat, r: Regs)
    requires MaxMoves < n < QueueSize
    ensures Wanted(Chain(n), Offs(n) + 2, r) == r(Offs(n) + 1)
  {
    assert Chain(n)[Offs(n) + 1] == Move(MovReg, Offs(n) + 1, Offs(n) + 2) && DistinctTargets(Chain(n));
    WantedAt(Chain(n), Offs(n) + 1, r);
  }

  lemma InRegisters(n: nat, x: int)
    requires 0 <= x <= n
    ensures x in Registers0(n)
  {
  }

  /** What is wrong when the scans have gone blind stays wrong. */
  lemma StaysWrong(n: nat, k: nat, free: seq<int>, w2: Work)
    requires MaxMoves < n < QueueSize && Sane(Registers0(n), Blind(n), k, free) && Ends(Blind(n), w2)
    ensures !Simultaneous(Chain(n), Registers0(n), w2.code)
  {
    var j: nat :| Ran(Blind(n), j) == Some(w2);
    var r: Regs := (x: int) => Original(x);
    WrongValue(n, r);
    RightValue(n, r);
    NotQueued(n);
    InRegisters(n, Offs(n) + 2);
    hide Blind, Chain, Sane, IsTarget, Wanted, Exec, Ran, Registers0;
    LaterLeaves(Registers0(n), Blind(n), k, free, j, w2, Offs(n) + 2, r);
    assert Exec(w2.code, r)(Offs(n) + 2) != Wanted(Chain(n), Offs(n) + 2, r);
  }

  /** Where a run goes wrong for any number of moves above 123. */
  lemma LongGoesWrong(n: nat) returns (w2: Work)
    requires MaxMoves < n < QueueSize
    ensures Starts(n, Registers0(n), ChainWork(n, 0)) && Ends(ChainWork(n, 0), w2)
    ensures !Simultaneous(ChainWork(n, 0).q, Registers0(n), w2.code)
  {
    hide ChainWork, Blind, Sane, Simultaneous, Starts, Ends;
    var k, free := BlindSteps(n);
    w2 := BlindEnds(n);
    ChainStarts(n);
    ChainEnds(n, Offs(n), w2);
    StaysWrong(n, k, free, w2);
  }
}
