/** Loading the argument registers of a call: moves between registers that may overlap in any way are put in an
    order, with extra registers to break cycles, in which they have the effect of one simultaneous assignment. */
module Moves {
  import opened CodeQueue

  datatype Op = PutTvar | PutNil | PutCon | PutNumcon | MovReg

  // Load register `target` with a constant `arg`, with a new variable, or from register `arg`.
  datatype Move = Move(op: Op, arg: int, target: int)

  // ---------------------------------------------------------------- what moves mean

  datatype Value = Original(n: int) | Variable(reg: int) | Nil | Con(c: int) | Num(n: int)

  type Regs = int -> Value

  function ValueOf(m: Move, r: Regs): Value {
    match m.op
    case PutTvar => Variable(m.target)
    case PutNil => Nil
    case PutCon => Con(m.arg)
    case PutNumcon => Num(m.arg)
    case MovReg => r(m.arg)
  }

  /** The registers after one instruction; a new variable is also put into register `arg`. */
  function Exec1(m: Move, r: Regs): Regs {
    x => if x == m.target || (m.op == PutTvar && x == m.arg) then ValueOf(m, r) else r(x)
  }

  function Exec(code: seq<Move>, r: Regs): Regs {
    if code == [] then r else Exec1(code[|code| - 1], Exec(code[..|code| - 1], r))
  }

  /** What register `x` is to hold if all moves of `q` happen at once. */
  function Wanted(q: seq<Move>, x: int, r: Regs): Value {
    if q == [] then r(x) else if q[0].target == x then ValueOf(q[0], r) else Wanted(q[1..], x, r)
  }

  predicate IsSource(q: seq<Move>, x: int) {
    exists i :: 0 <= i < |q| && q[i].op == MovReg && q[i].arg == x
  }

  predicate IsTarget(q: seq<Move>, x: int) {
    exists i :: 0 <= i < |q| && q[i].target == x
  }

  ghost predicate DistinctTargets(q: seq<Move>) {
    forall i, j :: 0 <= i < j < |q| ==> q[i].target != q[j].target
  }

  lemma {:induction false} WantedAt(q: seq<Move>, i: int, r: Regs)
    requires 0 <= i < |q| && DistinctTargets(q)
    ensures Wanted(q, q[i].target, r) == ValueOf(q[i], r)
  {
    if i > 0 { WantedAt(q[1..], i - 1, r); }
  }

  lemma {:induction false} WantedElsewhere(q: seq<Move>, x: int, r: Regs)
    requires !IsTarget(q, x)
    ensures Wanted(q, x, r) == r(x)
  {
    if q != [] {
      assert q[0].target != x;
      assert forall i :: 0 <= i < |q[1..]| ==> q[1..][i] == q[i + 1];
      WantedElsewhere(q[1..], x, r);
    }
  }

  // ---------------------------------------------------------------- the scans of the queue

  /** Whether register `reg` is not the source of a queued move, as long as the ring has not wrapped round. */
  method TargetIsNotSource(q: Queue<Move>, reg: int) returns (r: bool)
    requires q.Valid()
    ensures q.bottom <= q.top ==> (r <==> !IsSource(q.Contents(), reg))
    ensures q.bottom > q.top ==> r
  {
    var i := q.bottom;
    while i < q.top
      invariant q.bottom <= i && (q.bottom <= q.top ==> i <= q.top) && (q.bottom > q.top ==> i == q.bottom)
      invariant forall j :: q.bottom <= j < i ==> !(q.ring[j].op == MovReg && q.ring[j].arg == reg)
    {
      if q.ring[i].op == MovReg && q.ring[i].arg == reg {
        assert q.Contents()[i - q.bottom] == q.ring[i];
        return false;
      }
      i := i + 1;
    }
    r := true;
  }

  /** Whether register `reg` is not the target of anything queued, as long as the ring has not wrapped round. */
  method SourceIsNotTarget(q: Queue<Move>, reg: int) returns (r: bool)
    requires q.Valid()
    ensures q.bottom <= q.top ==> (r <==> !IsTarget(q.Contents(), reg))
    ensures q.bottom > q.top ==> r
  {
    var i := q.bottom;
    while i < q.top
      invariant q.bottom <= i && (q.bottom <= q.top ==> i <= q.top) && (q.bottom > q.top ==> i == q.bottom)
      invariant forall j :: q.bottom <= j < i ==> q.ring[j].target != reg
    {
      if q.ring[i].target == reg {
        assert q.Contents()[i - q.bottom] == q.ring[i];
        return false;
      }
      i := i + 1;
    }
    r := true;
  }

  // ---------------------------------------------------------------- the state of the work

  /** The code so far leaves, for every queued move, its value where it will look for it, and has done the rest
      of the moves `q0`. */
  ghost predicate OnTheWay(q0: seq<Move>, taken0: set<int>, code: seq<Move>, q: seq<Move>, r: Regs) {
    && (forall i :: 0 <= i < |q| ==> ValueOf(q[i], Exec(code, r)) == Wanted(q0, q[i].target, r))
    && (forall x :: x in taken0 && !IsTarget(q, x) ==> Exec(code, r)(x) == Wanted(q0, x, r))
  }

  ghost predicate AlwaysOnTheWay(q0: seq<Move>, taken0: set<int>, code: seq<Move>, q: seq<Move>) {
    forall r :: OnTheWay(q0, taken0, code, q, r)
  }

  /** The first `k` moves have not been put back into the queue yet; nothing still to be done overwrites the
      source of one that has. */
  ghost predicate Waiting(taken0: set<int>, q: seq<Move>, k: nat) {
    && k <= |q| && DistinctTargets(q)
    && (forall i :: 0 <= i < |q| ==> q[i].target in taken0 && (q[i].op == PutTvar ==> q[i].arg == q[i].target))
    && (forall i :: 0 <= i < k && q[i].op == MovReg ==> q[i].arg in taken0)
    && (forall i :: k <= i < |q| && q[i].op == MovReg ==> !IsTarget(q, q[i].arg))
    && (forall i, j :: 0 <= i < j < |q| && q[i].op == MovReg && q[j].op == MovReg && q[i].arg == q[j].arg ==>
        q[i].arg in taken0)
  }

  lemma StartWaiting(q: seq<Move>, taken0: set<int>)
    requires DistinctTargets(q) && forall i :: 0 <= i < |q| ==> q[i].target in taken0
    ensures AlwaysOnTheWay(q, taken0, [], q)
  {
    forall r
      ensures OnTheWay(q, taken0, [], q, r)
    {
      forall i | 0 <= i < |q|
        ensures ValueOf(q[i], r) == Wanted(q, q[i].target, r)
      {
        WantedAt(q, i, r);
      }
      forall x | x in taken0 && !IsTarget(q, x)
        ensures r(x) == Wanted(q, x, r)
      {
        WantedElsewhere(q, x, r);
      }
    }
  }

  // ---------------------------------------------------------------- one step

  lemma ExecAdd(code: seq<Move>, m: Move, r: Regs, x: int)
    ensures Exec(code + [m], r)(x) == Exec1(m, Exec(code, r))(x)
  {
    assert (code + [m])[..|code|] == code;
  }

  lemma RestOf(q: seq<Move>)
    requires q != []
    ensures forall x :: IsTarget(q, x) <==> x == q[0].target || IsTarget(q[1..], x)
    ensures forall x :: IsSource(q[1..], x) ==> IsSource(q, x)
  {
    assert forall i :: 0 <= i < |q[1..]| ==> q[1..][i] == q[i + 1];
    forall x | IsTarget(q[1..], x)
      ensures IsTarget(q, x)
    {
      var i :| 0 <= i < |q[1..]| && q[1..][i].target == x;
      assert q[i + 1].target == x;
    }
    forall x | IsTarget(q, x) && x != q[0].target
      ensures IsTarget(q[1..], x)
    {
      var i :| 0 <= i < |q| && q[i].target == x;
      assert q[1..][i - 1].target == x;
    }
    forall x | IsSource(q[1..], x)
      ensures IsSource(q, x)
    {
      var i :| 0 <= i < |q[1..]| && q[1..][i].op == MovReg && q[1..][i].arg == x;
      assert q[i + 1].arg == x;
    }
  }

  lemma WithLast(q: seq<Move>, m: Move)
    ensures forall x :: IsTarget(q + [m], x) <==> x == m.target || IsTarget(q, x)
  {
    assert forall i :: 0 <= i < |q| ==> (q + [m])[i] == q[i];
    assert (q + [m])[|q|] == m;
    forall x | IsTarget(q, x)
      ensures IsTarget(q + [m], x)
    {
      var i :| 0 <= i < |q| && q[i].target == x;
      assert (q + [m])[i].target == x;
    }
  }

  /** Carrying out the first move, when nothing else needs what it overwrites. */
  lemma Emit(q0: seq<Move>, taken0: set<int>, code: seq<Move>, q: seq<Move>, k: nat)
    requires q != [] && Waiting(taken0, q, k) && AlwaysOnTheWay(q0, taken0, code, q) && !IsSource(q[1..], q[0].target)
    ensures AlwaysOnTheWay(q0, taken0, code + [q[0]], q[1..])
  {
    var m, rest := q[0], q[1..];
    RestOf(q);
    forall r
      ensures OnTheWay(q0, taken0, code + [m], rest, r)
    {
      assert OnTheWay(q0, taken0, code, q, r);
      forall i | 0 <= i < |rest|
        ensures ValueOf(rest[i], Exec(code + [m], r)) == Wanted(q0, rest[i].target, r)
      {
        assert rest[i] == q[i + 1];
        if rest[i].op == MovReg { ExecAdd(code, m, r, rest[i].arg); }
      }
      forall x | x in taken0 && !IsTarget(rest, x)
        ensures Exec(code + [m], r)(x) == Wanted(q0, x, r)
      {
        ExecAdd(code, m, r, x);
        assert x == m.target ==> ValueOf(q[0], Exec(code, r)) == Wanted(q0, x, r);
      }
    }
  }

  /** Leaving out a move from a register to itself. */
  lemma Drop(q0: seq<Move>, taken0: set<int>, code: seq<Move>, q: seq<Move>)
    requires q != [] && AlwaysOnTheWay(q0, taken0, code, q) && q[0].op == MovReg && q[0].arg == q[0].target
    ensures AlwaysOnTheWay(q0, taken0, code, q[1..])
  {
    RestOf(q);
    forall r
      ensures OnTheWay(q0, taken0, code, q[1..], r)
    {
      assert OnTheWay(q0, taken0, code, q, r);
      assert ValueOf(q[0], Exec(code, r)) == Wanted(q0, q[0].target, r);
    }
  }

  /** Putting the first move off. */
  lemma PutOff(q0: seq<Move>, taken0: set<int>, code: seq<Move>, q: seq<Move>)
    requires q != [] && AlwaysOnTheWay(q0, taken0, code, q)
    ensures AlwaysOnTheWay(q0, taken0, code, q[1..] + [q[0]])
  {
    RestOf(q);
    WithLast(q[1..], q[0]);
    forall r
      ensures OnTheWay(q0, taken0, code, q[1..] + [q[0]], r)
    {
      assert OnTheWay(q0, taken0, code, q, r);
    }
  }

  /** Saving the source of the first move in the unused register `r0`. */
  lemma SaveSource(q0: seq<Move>, taken0: set<int>, code: seq<Move>, q: seq<Move>, r0: int)
    requires q != [] && AlwaysOnTheWay(q0, taken0, code, q) && q[0].op == MovReg
    requires r0 !in taken0 && !IsSource(q[1..], r0)
    ensures AlwaysOnTheWay(q0, taken0, code + [Move(MovReg, q[0].arg, r0)], q[1..] + [Move(MovReg, r0, q[0].target)])
  {
    var m, s := Move(MovReg, q[0].arg, r0), Move(MovReg, r0, q[0].target);
    var q2 := q[1..] + [s];
    RestOf(q);
    WithLast(q[1..], s);
    forall r
      ensures OnTheWay(q0, taken0, code + [m], q2, r)
    {
      assert OnTheWay(q0, taken0, code, q, r);
      forall i | 0 <= i < |q2|
        ensures ValueOf(q2[i], Exec(code + [m], r)) == Wanted(q0, q2[i].target, r)
      {
        if i < |q| - 1 {
          assert q2[i] == q[1..][i] == q[i + 1];
          if q2[i].op == MovReg { ExecAdd(code, m, r, q2[i].arg); }
        } else {
          ExecAdd(code, m, r, r0);
          assert q2[i] == s;
          var e := Exec(code, r);
          assert Exec1(m, e)(r0) == ValueOf(m, e) && ValueOf(m, e) == e(q[0].arg);
          assert ValueOf(s, Exec(code + [m], r)) == Exec(code + [m], r)(r0);
          assert ValueOf(q[0], e) == e(q[0].arg);
        }
      }
      forall x | x in taken0 && !IsTarget(q2, x)
        ensures Exec(code + [m], r)(x) == Wanted(q0, x, r)
      {
        ExecAdd(code, m, r, x);
      }
    }
  }

  lemma WaitingRest(taken0: set<int>, q: seq<Move>, k: nat)
    requires q != [] && Waiting(taken0, q, k)
    ensures Waiting(taken0, q[1..], if k > 0 then k - 1 else 0)
    ensures k == 0 ==> !IsSource(q[1..], q[0].target)
  {
    RestOf(q);
    var rest := q[1..];
    assert forall i :: 0 <= i < |rest| ==> rest[i] == q[i + 1];
  }

  lemma WaitingLast(taken0: set<int>, q: seq<Move>, k: nat, m: Move)
    requires Waiting(taken0, q, k) && !IsTarget(q, m.target) && m.target in taken0
    requires m.op == PutTvar ==> m.arg == m.target
    requires m.op == MovReg ==> m.arg != m.target && !IsTarget(q, m.arg) && (m.arg in taken0 || !IsSource(q, m.arg))
    requires forall i :: k <= i < |q| && q[i].op == MovReg ==> q[i].arg != m.target
    ensures Waiting(taken0, q + [m], k)
  {
    WithLast(q, m);
    var q2 := q + [m];
    assert forall i :: 0 <= i < |q| ==> q2[i] == q[i];
  }

  // ---------------------------------------------------------------- the whole queue

  /** The queue, its place in the ring, the table of registers and the code generated so far. */
  datatype Work = Work(q: seq<Move>, bottom: nat, top: nat, stat: seq<int>, first: int, code: seq<Move>)

  function Up(i: nat): nat {
    (i + 1) % QueueSize
  }

  /** What the code generator makes of the first move; nothing if it runs out of registers.  The scans of the queue
      see nothing once the ring has wrapped round. */
  function Next(w: Work): Option<Work>
    requires w.q != []
  {
    var m, rest, b := w.q[0], w.q[1..], Up(w.bottom);
    if m.op == MovReg && m.arg == m.target then
      Some(w.(q := rest, bottom := b))
    else if b > w.top || !IsSource(rest, m.target) then
      var g := if m.op == MovReg then GiveBack(w.stat, w.first, m.arg, TVar) else (w.stat, w.first);
      Some(Work(rest, b, w.top, g.0, g.1, w.code + [m]))
    else if m.op != MovReg || !IsTarget(rest, m.arg) then
      Some(w.(q := rest + [m], bottom := b, top := Up(w.top)))
    else
      match TakeFrom(w.stat, w.first, TVar)
      case None => None
      case Some(t) =>
        var g := GiveBack(t.0, t.1, m.arg, TVar);
        Some(Work(rest + [Move(MovReg, w.first, m.target)], b, Up(w.top), g.0, g.1,
                  w.code + [Move(MovReg, m.arg, w.first)]))
  }

  /** The work after `n` more moves, or at the end of the queue. */
  function Ran(w: Work, n: nat): Option<Work>
    decreases n
  {
    if n == 0 || w.q == [] then Some(w)
    else
      match Next(w)
      case None => None
      case Some(w2) => Ran(w2, n - 1)
  }

  ghost predicate Ends(w: Work, w2: Work) {
    w2.q == [] && exists n: nat :: Ran(w, n) == Some(w2)
  }

  ghost predicate Fails(w: Work) {
    exists n: nat :: Ran(w, n) == None
  }

  /** Every register a queued move reads is in use, and those in between serve one move only. */
  ghost predicate SourcesTaken(q: seq<Move>, taken: set<int>) {
    forall i :: 0 <= i < |q| && q[i].op == MovReg ==> q[i].arg in taken
  }

  /** The moves may be queued: targets are distinct, and no register involved is only held for a while. */
  ghost predicate Loadable(q: seq<Move>, taken0: set<int>) {
    && DistinctTargets(q)
    && (forall i :: 0 <= i < |q| ==> q[i].target in taken0 && (q[i].op == PutTvar ==> q[i].arg == q[i].target))
    && (forall i :: 0 <= i < |q| && q[i].op == MovReg ==> q[i].arg in taken0)
  }

  /** The code gives all registers in `taken0` the values they would have if all moves happened at once. */
  ghost predicate Simultaneous(q0: seq<Move>, taken0: set<int>, code: seq<Move>) {
    forall r: Regs, x :: x in taken0 ==> Exec(code, r)(x) == Wanted(q0, x, r)
  }

  lemma AllDone(q0: seq<Move>, taken0: set<int>, code: seq<Move>)
    requires AlwaysOnTheWay(q0, taken0, code, [])
    ensures Simultaneous(q0, taken0, code)
  {
    forall r: Regs, x | x in taken0
      ensures Exec(code, r)(x) == Wanted(q0, x, r)
    {
      assert OnTheWay(q0, taken0, code, [], r);
    }
  }

  // ---------------------------------------------------------------- what every step keeps

  function Less(k: nat): nat {
    if k > 0 then k - 1 else 0
  }

  ghost predicate Held(taken0: set<int>, q: seq<Move>, k: nat, taken: set<int>) {
    Waiting(taken0, q, k) && SourcesTaken(q, taken) && taken0 <= taken
  }

  /** The queue fills its part of the ring, and the registers it needs are in use.  `k` of the moves have not been
      looked at yet; `free` are the free registers. */
  ghost predicate Sane(taken0: set<int>, w: Work, k: nat, free: seq<int>) {
    && free != [] && free[0] == w.first && FreeList(w.stat, w.first, free)
    && Held(taken0, w.q, k, InUse(free)) && (forall x :: x in taken0 && 0 <= x < |w.stat| ==> w.stat[x] != TVar)
    && w.bottom < QueueSize && w.top < QueueSize
    && |w.q| == if w.bottom <= w.top then w.top - w.bottom else QueueSize - w.bottom + w.top
  }

  /** Going on without the first move, whose source may be given back if it was only held for a while. */
  lemma RestHeld(taken0: set<int>, q: seq<Move>, k: nat, taken: set<int>, taken2: set<int>)
    requires q != [] && Held(taken0, q, k, taken)
    requires taken2 == taken || (q[0].op == MovReg && q[0].arg !in taken0 && taken2 == taken - {q[0].arg})
    ensures Held(taken0, q[1..], Less(k), taken2)
  {
    WaitingRest(taken0, q, k);
    assert forall i :: 0 <= i < |q[1..]| ==> q[1..][i] == q[i + 1];
  }

  lemma TargetsApart(q: seq<Move>)
    requires q != [] && DistinctTargets(q)
    ensures !IsTarget(q[1..], q[0].target)
  {
  }

  /** A move is put off at most once. */
  lemma PushedOnce(taken0: set<int>, q: seq<Move>, k: nat)
    requires q != [] && Waiting(taken0, q, k) && IsSource(q[1..], q[0].target)
    ensures k > 1
    ensures forall i :: Less(k) <= i < |q[1..]| && q[1..][i].op == MovReg ==> q[1..][i].arg != q[0].target
  {
    assert IsTarget(q, q[0].target);
    var i :| 0 <= i < |q[1..]| && q[1..][i].op == MovReg && q[1..][i].arg == q[0].target;
    assert q[1..][i] == q[i + 1];
  }

  lemma PutOffHeld(taken0: set<int>, q: seq<Move>, k: nat, taken: set<int>)
    requires q != [] && Held(taken0, q, k, taken) && IsSource(q[1..], q[0].target)
    requires q[0].op == MovReg ==> q[0].arg != q[0].target && !IsTarget(q[1..], q[0].arg)
    ensures k > 1 && Held(taken0, q[1..] + [q[0]], k - 1, taken)
  {
    PushedOnce(taken0, q, k);
    WaitingRest(taken0, q, k);
    TargetsApart(q);
    WaitingLast(taken0, q[1..], k - 1, q[0]);
  }

  lemma SavedHeld(taken0: set<int>, q: seq<Move>, k: nat, taken: set<int>, taken2: set<int>, r0: int)
    requires q != [] && Held(taken0, q, k, taken) && IsSource(q[1..], q[0].target)
    requires q[0].op == MovReg && q[0].arg != q[0].target && r0 !in taken
    requires taken2 == taken + {r0} || (q[0].arg !in taken0 && taken2 == taken + {r0} - {q[0].arg})
    ensures k > 1 && !IsSource(q[1..], r0)
    ensures Held(taken0, q[1..] + [Move(MovReg, r0, q[0].target)], k - 1, taken2)
  {
    var m := Move(MovReg, r0, q[0].target);
    RestOf(q);
    assert forall i :: 0 <= i < |q[1..]| ==> q[1..][i] == q[i + 1];
    assert !IsSource(q[1..], r0) && !IsTarget(q[1..], r0) && r0 != m.target;
    PushedOnce(taken0, q, k);
    WaitingRest(taken0, q, k);
    TargetsApart(q);
    WaitingLast(taken0, q[1..], k - 1, m);
  }

  /** Every step keeps the work sane; it either finishes a move or puts one off that has not been put off before. */
  lemma NextSane(taken0: set<int>, w: Work, k: nat, free: seq<int>) returns (free2: seq<int>)
    requires w.q != [] && Sane(taken0, w, k, free) && Next(w).Some?
    ensures Sane(taken0, Next(w).value, Less(k), free2)
    ensures var w2 := Next(w).value;
            w2.bottom == Up(w.bottom) &&
            (if |w2.q| == |w.q| then k > 1 && w2.top == Up(w.top) else |w2.q| == |w.q| - 1 && w2.top == w.top)
  {
    hide FreeList, Waiting, InUse, ListFrom;
    var m, rest, w2 := w.q[0], w.q[1..], Next(w).value;
    free2 := free;
    InUseRange(w.stat, free);
    if m.op == MovReg && m.arg == m.target {
      RestHeld(taken0, w.q, k, InUse(free), InUse(free));
    } else if Up(w.bottom) > w.top || !IsSource(rest, m.target) {
      if m.op == MovReg { free2 := GivenBack(w.stat, free, m.arg, TVar); }
      RestHeld(taken0, w.q, k, InUse(free), InUse(free2));
    } else if m.op != MovReg || !IsTarget(rest, m.arg) {
      PutOffHeld(taken0, w.q, k, InUse(free));
    } else {
      var t := TakeFrom(w.stat, w.first, TVar).value;
      var free1 := TakenFrom(w.stat, free, TVar);
      InUseRange(t.0, free1);
      free2 := GivenBack(t.0, free1, m.arg, TVar);
      SavedHeld(taken0, w.q, k, InUse(free), InUse(free2), w.first);
    }
  }

  // ---------------------------------------------------------------- registers are given back

  /** Of the registers not in use at the start, exactly the sources of queued moves are in use, each only for a
      while. */
  ghost predicate Balanced(taken0: set<int>, taken1: set<int>, w: Work, free: seq<int>) {
    && free != [] && taken0 <= taken1
    && (forall x :: x in InUse(free) <==> x in taken1 || (x !in taken0 && IsSource(w.q, x)))
    && (forall x :: x !in taken0 && IsSource(w.q, x) ==> x !in taken1 && 0 <= x < |w.stat| && w.stat[x] == TVar)
  }

  lemma StartBalanced(taken0: set<int>, w: Work, free: seq<int>)
    requires free != [] && taken0 <= InUse(free) && Loadable(w.q, taken0)
    ensures Balanced(taken0, InUse(free), w, free)
  {
  }

  lemma EndBalanced(taken0: set<int>, taken1: set<int>, w: Work, free: seq<int>)
    requires Balanced(taken0, taken1, w, free) && w.q == []
    ensures InUse(free) == taken1
  {
  }

  lemma Sources(q: seq<Move>, m: Move)
    ensures q != [] ==> forall x :: IsSource(q, x) <==> (q[0].op == MovReg && q[0].arg == x) || IsSource(q[1..], x)
    ensures forall x :: IsSource(q + [m], x) <==> (m.op == MovReg && m.arg == x) || IsSource(q, x)
  {
    if q != [] {
      RestOf(q);
      forall x | IsSource(q, x) && !(q[0].op == MovReg && q[0].arg == x)
        ensures IsSource(q[1..], x)
      {
        var i :| 0 <= i < |q| && q[i].op == MovReg && q[i].arg == x;
        assert q[1..][i - 1] == q[i];
      }
    }
    forall x | IsSource(q, x)
      ensures IsSource(q + [m], x)
    {
      var i :| 0 <= i < |q| && q[i].op == MovReg && q[i].arg == x;
      assert (q + [m])[i] == q[i];
    }
    if m.op == MovReg {
      assert (q + [m])[|q|] == m;
      assert IsSource(q + [m], m.arg);
    }
  }

  /** Moves from registers held for a while have one source each, which nothing is loaded into. */
  lemma SaneSource(taken0: set<int>, w: Work, k: nat, free: seq<int>)
    requires w.q != [] && Sane(taken0, w, k, free)
    ensures w.q[0].target in taken0 && taken0 <= InUse(free)
    ensures w.q[0].op == MovReg && w.q[0].arg !in taken0 ==> !IsSource(w.q[1..], w.q[0].arg)
    ensures w.q[0].op == MovReg && IsTarget(w.q[1..], w.q[0].arg) ==> w.q[0].arg in taken0
    ensures w.q[0].op == MovReg ==> w.q[0].arg in InUse(free)
    ensures forall x :: x in taken0 && 0 <= x < |w.stat| ==> w.stat[x] != TVar
  {
    assert forall i :: 0 <= i < |w.q[1..]| ==> w.q[1..][i] == w.q[i + 1];
  }

  lemma ListOf(taken0: set<int>, w: Work, k: nat, free: seq<int>, list: seq<int>)
    requires Sane(taken0, w, k, free)
    ensures free != [] && free[0] == w.first && FreeList(w.stat, w.first, free)
    ensures list != [] && FreeList(w.stat, w.first, list) ==> free == list
  {
    if list != [] && FreeList(w.stat, w.first, list) { OneList(w.stat, w.first, free, list); }
  }

  lemma Kept(stat: seq<int>, free: seq<int>)
    requires free != [] && FreeList(stat, free[0], free) && TakeFrom(stat, free[0], TVar).Some?
    ensures var s := TakeFrom(stat, free[0], TVar).value.0;
            |s| == |stat| && s[free[0]] == TVar && forall x :: x in InUse(free) ==> 0 <= x < |s| && s[x] == stat[x]
  {
    FirstFree(stat, free);
  }

  lemma EmitBalanced(taken0: set<int>, taken1: set<int>, w: Work, k: nat, free: seq<int>, w2: Work)
    returns (list: seq<int>)
    requires w.q != [] && Sane(taken0, w, k, free) && Balanced(taken0, taken1, w, free)
    requires w2.q == w.q[1..] && w.q[0].op == MovReg &&
             (w2.stat, w2.first) == GiveBack(w.stat, w.first, w.q[0].arg, TVar)
    ensures Balanced(taken0, taken1, w2, list) && FreeList(w2.stat, w2.first, list)
  {
    hide FreeList, InUse, Sane, IsSource, IsTarget;
    SaneSource(taken0, w, k, free);
    ListOf(taken0, w, k, free, free);
    InUseRange(w.stat, free);
    Sources(w.q, w.q[0]);
    list := GivenBack(w.stat, free, w.q[0].arg, TVar);
  }

  lemma SaveBalanced(taken0: set<int>, taken1: set<int>, w: Work, k: nat, free: seq<int>, w2: Work)
    returns (list: seq<int>)
    requires w.q != [] && Sane(taken0, w, k, free) && Balanced(taken0, taken1, w, free) && w.q[0].arg in taken0
    requires TakeFrom(w.stat, w.first, TVar).Some? && w.q[0].op == MovReg
    requires var t := TakeFrom(w.stat, w.first, TVar).value;
             (w2.stat, w2.first) == GiveBack(t.0, t.1, w.q[0].arg, TVar)
    requires w2.q == w.q[1..] + [Move(MovReg, w.first, w.q[0].target)]
    ensures Balanced(taken0, taken1, w2, list) && FreeList(w2.stat, w2.first, list)
  {
    hide FreeList, InUse, Sane, IsSource, IsTarget, TakeFrom;
    SaneSource(taken0, w, k, free);
    ListOf(taken0, w, k, free, free);
    InUseRange(w.stat, free);
    Sources(w.q, w.q[0]);
    Sources(w.q[1..], Move(MovReg, w.first, w.q[0].target));
    Kept(w.stat, free);
    list := TakenFrom(w.stat, free, TVar);
  }

  /** Every step keeps this balance. */
  lemma NextBalanced(taken0: set<int>, taken1: set<int>, w: Work, k: nat, free: seq<int>, free2: seq<int>)
    requires w.q != [] && Sane(taken0, w, k, free) && Balanced(taken0, taken1, w, free) && Next(w).Some?
    requires Sane(taken0, Next(w).value, Less(k), free2)
    ensures Balanced(taken0, taken1, Next(w).value, free2)
  {
    hide FreeList, InUse, Sane, IsSource, IsTarget, TakeFrom, GiveBack;
    SaneSource(taken0, w, k, free);
    ListOf(taken0, w, k, free, free);
    var m, rest, w2, list := w.q[0], w.q[1..], Next(w).value, free;
    if m.op == MovReg && m.arg == m.target {
      Sources(w.q, m);
    } else if Up(w.bottom) > w.top || !IsSource(rest, m.target) {
      if m.op == MovReg {
        list := EmitBalanced(taken0, taken1, w, k, free, w2);
      } else {
        Sources(w.q, m);
      }
    } else if m.op != MovReg || !IsTarget(rest, m.arg) {
      Sources(w.q, m);
      Sources(rest, m);
    } else {
      list := SaveBalanced(taken0, taken1, w, k, free, w2);
    }
    ListOf(taken0, w2, Less(k), free2, list);
  }

  /** As long as the scans see the queue, every step keeps the values on their way. */
  lemma NextOnTheWay(q0: seq<Move>, taken0: set<int>, w: Work, k: nat, free: seq<int>)
    requires w.q != [] && Sane(taken0, w, k, free) && Next(w).Some? && AlwaysOnTheWay(q0, taken0, w.code, w.q)
    requires Up(w.bottom) <= w.top
    ensures AlwaysOnTheWay(q0, taken0, Next(w).value.code, Next(w).value.q)
  {
    hide AlwaysOnTheWay, FreeList, InUse, Waiting;
    var m, rest := w.q[0], w.q[1..];
    if m.op == MovReg && m.arg == m.target {
      Drop(q0, taken0, w.code, w.q);
    } else if !IsSource(rest, m.target) {
      Emit(q0, taken0, w.code, w.q, k);
    } else if m.op != MovReg || !IsTarget(rest, m.arg) {
      PutOff(q0, taken0, w.code, w.q);
    } else {
      InUseRange(w.stat, free);
      SavedHeld(taken0, w.q, k, InUse(free), InUse(free) + {w.first}, w.first);
      SaveSource(q0, taken0, w.code, w.q, w.first);
    }
  }

  // ---------------------------------------------------------------- the code generator

  ghost function WorkOf(queue: Queue<Move>, regs: Registers, code: seq<Move>): Work
    requires queue.Valid()
    reads queue`top, queue`bottom, queue.ring, regs, regs.stat
  {
    Work(queue.Contents(), queue.bottom, queue.top, regs.stat[..], regs.freeReg, code)
  }

  /** Takes a register for the value of register `arg`, which may be given back for it. */
  method Exchange(arg: int, regs: Registers) returns (ok: bool, r0: int)
    requires regs.Valid() && arg in regs.Taken()
    modifies regs, regs.stat
    ensures ok ==> regs.Valid()
    ensures r0 == old(regs.freeReg)
    ensures match TakeFrom(old(regs.stat[..]), old(regs.freeReg), TVar)
            case None => !ok
            case Some(t) => ok && (regs.stat[..], regs.freeReg) == GiveBack(t.0, t.1, arg, TVar)
  {
    hide TakeFrom, GiveBack, FreeList, InUse, ListFrom;
    ok, r0 := regs.Get(TVar);
    if ok { regs.Release(arg); }
  }

  /** Puts the move `m`, taken from the queue, back at the end, and saves its source if something is still to be
      loaded into it. */
  method Defer(m: Move, queue: Queue<Move>, regs: Registers, code: seq<Move>) returns (ok: bool, code2: seq<Move>)
    requires queue.Valid() && regs.Valid() && |queue.Contents()| < QueueSize - 1 && queue.bottom <= queue.top
    requires m.op == MovReg ==> m.arg in regs.Taken()
    modifies queue`top, queue.ring, regs, regs.stat
    ensures ok ==> queue.Valid() && regs.Valid() && queue.top == Up(old(queue.top))
    ensures var q, stat, first := old(queue.Contents()), old(regs.stat[..]), old(regs.freeReg);
            if m.op != MovReg || !IsTarget(q, m.arg)
            then ok && queue.Contents() == q + [m] && regs.stat[..] == stat && regs.freeReg == first && code2 == code
            else
              match TakeFrom(stat, first, TVar)
              case None => !ok
              case Some(t) => ok && queue.Contents() == q + [Move(MovReg, first, m.target)] &&
                              (regs.stat[..], regs.freeReg) == GiveBack(t.0, t.1, m.arg, TVar) &&
                              code2 == code + [Move(MovReg, m.arg, first)]
  {
    ghost var q := queue.Contents();
    hide TakeFrom, GiveBack, FreeList, InUse, ListFrom, IsTarget, Between;
    ok, code2 := true, code;
    var m2 := m;
    if m.op == MovReg {
      var again := SourceIsNotTarget(queue, m.arg);
      if !again {
        var r0: int;
        ok, r0 := Exchange(m.arg, regs);
        if !ok { return; }
        m2, code2 := Move(MovReg, r0, m.target), code + [Move(MovReg, m.arg, r0)];
      }
    }
    assert queue.Contents() == q;
    ok := queue.Push(m2);
  }

  /** Deals with the first move of the queue. */
  method GenMove(queue: Queue<Move>, regs: Registers, code: seq<Move>) returns (ok: bool, code2: seq<Move>)
    requires queue.Valid() && regs.Valid() && queue.Contents() != []
    requires SourcesTaken(queue.Contents(), regs.Taken())
    modifies queue`top, queue`bottom, queue.ring, regs, regs.stat
    ensures ok ==> queue.Valid() && regs.Valid()
    ensures match Next(old(WorkOf(queue, regs, code)))
            case None => !ok
            case Some(w) => ok && w == WorkOf(queue, regs, code2)
  {
    ghost var q := queue.Contents();
    hide TakeFrom, GiveBack, FreeList, InUse, ListFrom;
    var m := queue.Rem();
    assert q[0] == m && queue.Contents() == q[1..];
    ok, code2 := true, code;
    if m.op == MovReg && m.arg == m.target { return; }
    var free := TargetIsNotSource(queue, m.target);
    if free {
      code2 := code + [m];
      if m.op == MovReg { regs.Release(m.arg); }
    } else {
      ok, code2 := Defer(m, queue, regs, code);
    }
  }

  ghost predicate Led(w0: Work, n: nat, w: Work) {
    forall j: nat :: Ran(w, j) == Ran(w0, n + j)
  }

  lemma LedOn(w0: Work, n: nat, w: Work)
    requires Led(w0, n, w) && w.q != []
    ensures Next(w) == None ==> Ran(w0, n + 1) == None
    ensures Next(w).Some? ==> Led(w0, n + 1, Next(w).value)
  {
    if Next(w) == None {
      assert Ran(w, 1) == Ran(w0, n + 1);
    } else {
      forall j: nat
        ensures Ran(Next(w).value, j) == Ran(w0, n + 1 + j)
      {
        assert Ran(w, j + 1) == Ran(w0, n + (j + 1));
      }
    }
  }

  lemma LedEnds(w0: Work, n: nat, w: Work)
    requires Led(w0, n, w) && w.q == []
    ensures Ends(w0, w)
  {
    assert Ran(w, 0) == Ran(w0, n + 0);
    assert Ran(w0, n) == Some(w);
  }

  lemma StartSane(w: Work, taken0: set<int>, free: seq<int>)
    requires free != [] && free[0] == w.first && FreeList(w.stat, w.first, free) && Loadable(w.q, taken0) &&
             taken0 <= InUse(free)
    requires forall x :: x in taken0 && 0 <= x < |w.stat| ==> w.stat[x] != TVar
    requires w.bottom < QueueSize && w.top < QueueSize
    requires |w.q| == if w.bottom <= w.top then w.top - w.bottom else QueueSize - w.bottom + w.top
    ensures Sane(taken0, w, |w.q|, free)
  {
  }

  lemma SameFree(taken0: set<int>, w: Work, k: nat, free: seq<int>, free2: seq<int>)
    requires Sane(taken0, w, k, free) && free2 != [] && free2[0] == w.first && FreeList(w.stat, w.first, free2)
    ensures Sane(taken0, w, k, free2)
  {
    OneList(w.stat, w.first, free, free2);
  }

  lemma SaneSources(taken0: set<int>, w: Work, k: nat, free: seq<int>)
    requires Sane(taken0, w, k, free)
    ensures free != [] && SourcesTaken(w.q, InUse(free))
  {
  }

  /** Deals with the first move and keeps the work sane. */
  method GenNext(queue: Queue<Move>, regs: Registers, code: seq<Move>, ghost taken0: set<int>, ghost taken1: set<int>,
                 ghost w: Work, ghost k: nat)
    returns (ok: bool, code2: seq<Move>)
    requires queue.Valid() && regs.Valid() && WorkOf(queue, regs, code) == w && w.q != [] &&
             Sane(taken0, w, k, regs.free) && Balanced(taken0, taken1, w, regs.free)
    modifies queue`top, queue`bottom, queue.ring, regs, regs.stat
    ensures ok <==> Next(w).Some?
    ensures ok ==> queue.Valid() && regs.Valid() && WorkOf(queue, regs, code2) == Next(w).value
    ensures ok ==> Sane(taken0, Next(w).value, Less(k), regs.free)
    ensures ok ==> Balanced(taken0, taken1, Next(w).value, regs.free)
    ensures ok ==> Less(k) + |Next(w).value.q| < k + |w.q|
  {
    hide Next, Sane, Held, FreeList, Balanced;
    SaneSources(taken0, w, k, regs.free);
    ghost var free := regs.free;
    ghost var free2: seq<int> := [];
    if Next(w).Some? { free2 := NextSane(taken0, w, k, regs.free); }
    ok, code2 := GenMove(queue, regs, code);
    if ok {
      SameFree(taken0, Next(w).value, Less(k), free2, regs.free);
      NextBalanced(taken0, taken1, w, k, free, regs.free);
    }
  }

  /** Generates the moves in the queue.  The loop ends although moves are put back. */
  method GenMvs(queue: Queue<Move>, regs: Registers, ghost taken0: set<int>) returns (ok: bool, code: seq<Move>)
    requires queue.Valid() && regs.Valid() && Loadable(queue.Contents(), taken0)
    requires taken0 <= regs.Taken() && forall x :: x in taken0 ==> regs.stat[x] != TVar
    modifies queue`top, queue`bottom, queue.ring, regs, regs.stat
    ensures ok ==> queue.Valid() && Ends(old(WorkOf(queue, regs, [])), WorkOf(queue, regs, code))
    ensures ok ==> regs.Valid() && regs.Taken() == old(regs.Taken())
    ensures !ok ==> Fails(old(WorkOf(queue, regs, [])))
  {
    hide Next, Sane, Loadable, FreeList, Led, Ends, Balanced, InUse;
    ghost var taken1 := regs.Taken();
    ghost var w0 := WorkOf(queue, regs, []);
    ghost var w, k: nat, n: nat := w0, |w0.q|, 0;
    code, ok := [], true;
    StartSane(w0, taken0, regs.free);
    StartLed(w0);
    StartBalanced(taken0, w0, regs.free);
    var empty := queue.Empty();
    while !empty
      invariant queue.Valid() && regs.Valid() && WorkOf(queue, regs, code) == w && ok
      invariant Sane(taken0, w, k, regs.free) && Led(w0, n, w) && (empty <==> w.q == [])
      invariant Balanced(taken0, taken1, w, regs.free)
      decreases k + |w.q|, if empty then 0 else 1
    {
      LedOn(w0, n, w);
      ok, code := GenNext(queue, regs, code, taken0, taken1, w, k);
      if !ok { return; }
      w, k, n := Next(w).value, Less(k), n + 1;
      empty := queue.Empty();
    }
    LedEnds(w0, n, w);
    EndBalanced(taken0, taken1, w, regs.free);
  }

  lemma StartLed(w0: Work)
    ensures Led(w0, 0, w0)
  {
  }
}
