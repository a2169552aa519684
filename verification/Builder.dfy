/** Compiling a term into instructions that build it: an instruction for every argument of a structure in turn, the
    structures among them being put in a queue and built later through a register that refers to their cell. */
module Builder {
  import opened CodeQueue
  import opened TermCode
  import opened BuiltTerms

  datatype Pending = Pending(reg: int, term: Term)

  // What the code so far has built, the variables it has met and the subterms still to be built; `addrs` are the
  // cells of the queued subterms, `others` registers in use that have nothing to do with the terms to be built.
  datatype State = State(m: Machine, env: Env, holes: Holes, addrs: seq<nat>, others: set<int>)

  function OccPending(q: seq<Pending>, v: int): nat {
    if q == [] then 0 else Occ(q[0].term, v) + OccPending(q[1..], v)
  }

  lemma {:induction false} OccPendingConcat(a: seq<Pending>, b: seq<Pending>, v: int)
    ensures OccPending(a + b, v) == OccPending(a, v) + OccPending(b, v)
  {
    if a == [] {
      assert a + b == b;
    } else {
      assert (a + b)[0] == a[0] && (a + b)[1..] == a[1..] + b;
      OccPendingConcat(a[1..], b, v);
    }
  }

  /** The occurrences of a variable for which no code has been generated yet. */
  function Rest(q: seq<Pending>, more: seq<Term>, v: int): nat {
    OccPending(q, v) + OccAll(more, v)
  }

  // ---------------------------------------------------------------- what is kept

  predicate Refers(m: Machine, r: int, a: nat) {
    r in m.regs && m.regs[r] == Ref(a)
  }

  ghost predicate PendingRight(s: State, p: Pending, a: nat) {
    Compound(p.term) && Refers(s.m, p.reg, a) && a < |s.m.heap| && s.m.heap[a] == Ref(a) && a in s.holes &&
    s.holes[a] == Made(p.term)
  }

  /** Each queued subterm has a free cell of its own, to which its register refers. */
  ghost predicate QueueRight(s: State, q: seq<Pending>) {
    && |s.addrs| == |q|
    && (forall i :: 0 <= i < |q| ==> PendingRight(s, q[i], s.addrs[i]))
    && (forall i, j :: 0 <= i < j < |q| ==> s.addrs[i] != s.addrs[j])
    && (forall a :: a in s.holes ==> a in s.addrs)
  }

  /** Each variable met has a free cell of its own. */
  ghost predicate EnvRight(s: State) {
    && (forall v :: v in s.env ==> s.env[v] < |s.m.heap| && s.m.heap[s.env[v]] == Ref(s.env[v]) && s.env[v] !in s.holes)
    && (forall v, w :: v in s.env && w in s.env && v != w ==> s.env[v] != s.env[w])
  }

  /** A variable that is still to occur is counted exactly, and has a register once it has occurred. */
  ghost predicate VarRight(s: State, v: int, rest: nat, reg: map<int, int>, left: map<int, int>) {
    rest > 0 ==>
      v in left && left[v] == rest && (v in reg <==> v in s.env) && (v in reg ==> Refers(s.m, reg[v], s.env[v]))
  }

  ghost predicate VarsRight(s: State, q: seq<Pending>, more: seq<Term>, reg: map<int, int>, left: map<int, int>) {
    forall v :: VarRight(s, v, Rest(q, more, v), reg, left)
  }

  /** All registers still needed are in use; those in `keep` are none of them and have not changed. */
  ghost predicate RegsRight(s: State, q: seq<Pending>, more: seq<Term>, reg: map<int, int>, taken: set<int>,
                            base: Machine, keep: set<int>) {
    && (forall i :: 0 <= i < |q| ==> q[i].reg in taken && q[i].reg !in keep)
    && (forall v :: Rest(q, more, v) > 0 && v in reg ==> reg[v] in taken && reg[v] !in keep)
    && keep <= taken && (forall x :: x in keep && x in base.regs ==> x in s.m.regs && s.m.regs[x] == base.regs[x])
  }

  ghost predicate Right(s: State, q: seq<Pending>, more: seq<Term>, reg: map<int, int>, left: map<int, int>,
                        taken: set<int>, base: Machine, keep: set<int>) {
    QueueRight(s, q) && EnvRight(s) && VarsRight(s, q, more, reg, left) && RegsRight(s, q, more, reg, taken, base, keep)
  }

  /** Register `x` is needed for a queued subterm, or for a variable that is still to occur. */
  ghost predicate Serves(x: int, q: seq<Pending>, more: seq<Term>, reg: map<int, int>) {
    (exists i :: 0 <= i < |q| && q[i].reg == x) || exists v :: v in reg && reg[v] == x && Rest(q, more, v) > 0
  }

  /** Nothing is in use that is not needed, and what is needed can be given back. */
  ghost predicate Accounted(others: set<int>, q: seq<Pending>, more: seq<Term>, reg: map<int, int>, stat: seq<int>,
                            taken: set<int>) {
    && (forall i :: 0 <= i < |q| ==> 0 <= q[i].reg < |stat| && stat[q[i].reg] == TVar)
    && (forall v :: Rest(q, more, v) > 0 && v in reg && reg[v] !in others ==>
          0 <= reg[v] < |stat| && stat[reg[v]] == RVar)
    && (forall x :: x in taken ==> x in others || Serves(x, q, more, reg))
  }

  /** The code between `s` and `s2` has put the term `t` into the next cell, and the last part of a long list into
      the cells after it. */
  ghost predicate Placed(s: State, s2: State, t: Term, isLast: bool) {
    && s.m.heap <= s2.m.heap && |s.m.heap| < |s2.m.heap| && (!isLast ==> |s2.m.heap| == |s.m.heap| + 1)
    && Within(s.env, s2.env) && Within(s.holes, s2.holes) && s2.others == s.others
    && (forall a :: a in s2.holes ==> a in s.holes || a >= |s.m.heap|)
    && Holds(s2.m.heap, s2.m.heap[|s.m.heap|], t, s2.env, s2.holes)
  }

  // ---------------------------------------------------------------- one cell more

  /** The state with one more cell on the heap, to which register `r` refers if it is a register. */
  function Grown(s: State, c: Cell, r: Option<int>): State {
    s.(m := Machine(s.m.heap + [c], if r.Some? then s.m.regs[r.value := Ref(|s.m.heap|)] else s.m.regs))
  }

  lemma QueueGrows(s: State, q: seq<Pending>, c: Cell, r: Option<int>)
    requires QueueRight(s, q) && (r.Some? ==> forall i :: 0 <= i < |q| ==> q[i].reg != r.value)
    ensures QueueRight(Grown(s, c, r), q)
  {
    var s2 := Grown(s, c, r);
    forall i | 0 <= i < |q|
      ensures PendingRight(s2, q[i], s2.addrs[i])
    {
      assert PendingRight(s, q[i], s.addrs[i]);
    }
  }

  lemma VarGrows(s: State, c: Cell, r: Option<int>, v: int, rest: nat, reg: map<int, int>, left: map<int, int>)
    requires VarRight(s, v, rest, reg, left)
    requires r.Some? && rest > 0 && v in reg ==> reg[v] != r.value
    ensures VarRight(Grown(s, c, r), v, rest, reg, left)
  {
  }

  lemma RestHead(q: seq<Pending>, t: Term, more: seq<Term>, v: int)
    ensures Rest(q, [t] + more, v) == Rest(q, more, v) + Occ(t, v)
  {
    assert ([t] + more)[1..] == more;
  }

  ghost predicate Alike(q: seq<Pending>, more: seq<Term>, q2: seq<Pending>, more2: seq<Term>) {
    forall v :: Rest(q2, more2, v) == Rest(q, more, v)
  }

  /** One more cell disturbs nothing. */
  lemma GrowRight(s: State, q: seq<Pending>, more: seq<Term>, more2: seq<Term>, c: Cell, reg: map<int, int>,
                  left: map<int, int>, taken: set<int>, base: Machine, keep: set<int>)
    requires Right(s, q, more, reg, left, taken, base, keep) && Alike(q, more, q, more2)
    ensures Right(Grown(s, c, None), q, more2, reg, left, taken, base, keep)
  {
    QueueGrows(s, q, c, None);
    forall v
      ensures VarRight(Grown(s, c, None), v, Rest(q, more2, v), reg, left)
    {
      VarGrows(s, c, None, v, Rest(q, more, v), reg, left);
    }
  }

  lemma ConstantAlike(q: seq<Pending>, t: Term, more: seq<Term>)
    requires t.Con? || t.Int? || t.Nil?
    ensures Alike(q, [t] + more, q, more)
  {
    forall v
      ensures Rest(q, more, v) == Rest(q, [t] + more, v)
    {
      RestHead(q, t, more, v);
    }
  }

  /** A constant in the next cell. */
  lemma ConstantPlaced(s: State, q: seq<Pending>, t: Term, more: seq<Term>, c: Cell, isLast: bool, reg: map<int, int>,
                       left: map<int, int>, taken: set<int>, base: Machine, keep: set<int>)
    requires Right(s, q, [t] + more, reg, left, taken, base, keep)
    requires (t.Con? && c == CCon(t.c)) || (t.Int? && c == CInt(t.n)) || (t.Nil? && c == CNil)
    ensures Right(Grown(s, c, None), q, more, reg, left, taken, base, keep) && Placed(s, Grown(s, c, None), t, isLast)
  {
    ConstantAlike(q, t, more);
    GrowRight(s, q, [t] + more, more, c, reg, left, taken, base, keep);
  }

  /** The state after a new variable has been put into the next cell. */
  function Met(s: State, v: int, r: Option<int>): State {
    Grown(s, Ref(|s.m.heap|), r).(env := s.env[v := |s.m.heap|])
  }

  lemma MetQueue(s: State, q: seq<Pending>, v: int, r: Option<int>)
    requires QueueRight(s, q) && (r.Some? ==> forall i :: 0 <= i < |q| ==> q[i].reg != r.value)
    ensures QueueRight(Met(s, v, r), q)
  {
    var s1, s2 := Grown(s, Ref(|s.m.heap|), r), Met(s, v, r);
    QueueGrows(s, q, Ref(|s.m.heap|), r);
    forall i | 0 <= i < |q|
      ensures PendingRight(s2, q[i], s2.addrs[i])
    {
      assert PendingRight(s1, q[i], s2.addrs[i]);
    }
  }

  lemma MetEnv(s: State, q: seq<Pending>, v: int, r: Option<int>)
    requires EnvRight(s) && QueueRight(s, q)
    ensures EnvRight(Met(s, v, r))
  {
    hide QueueRight;
    HolesBelow(s, q);
  }

  lemma HolesBelow(s: State, q: seq<Pending>)
    requires QueueRight(s, q)
    ensures forall a :: a in s.holes ==> a < |s.m.heap| && s.m.heap[a] == Ref(a)
  {
    forall a | a in s.holes
      ensures a < |s.m.heap| && s.m.heap[a] == Ref(a)
    {
      var i :| 0 <= i < |s.addrs| && s.addrs[i] == a;
      assert PendingRight(s, q[i], s.addrs[i]);
    }
  }

  ghost predicate FirstUse(v: int, r: Option<int>, reg: map<int, int>, left: map<int, int>, reg2: map<int, int>,
                           left2: map<int, int>, taken: set<int>) {
    && v in left && v !in reg
    && if left[v] == 1 then r == None && reg2 == reg[v := -1] && left2 == left
       else r.Some? && r.value !in taken && reg2 == reg[v := r.value] && left2 == left[v := left[v] - 1]
  }

  lemma MetVar(s: State, q: seq<Pending>, v: int, more: seq<Term>, r: Option<int>, reg: map<int, int>,
               left: map<int, int>, reg2: map<int, int>, left2: map<int, int>, taken: set<int>, w: int)
    requires VarsRight(s, q, [Var(v)] + more, reg, left) && FirstUse(v, r, reg, left, reg2, left2, taken)
    requires Rest(q, more, w) > 0 && w in reg ==> reg[w] in taken
    ensures VarRight(Met(s, v, r), w, Rest(q, more, w), reg2, left2)
  {
    RestHead(q, Var(v), more, w);
    assert VarRight(s, w, Rest(q, [Var(v)] + more, w), reg, left);
  }

  lemma MetRegs(s: State, q: seq<Pending>, v: int, more: seq<Term>, r: Option<int>, reg: map<int, int>,
                left: map<int, int>, reg2: map<int, int>, left2: map<int, int>, taken: set<int>, base: Machine,
                keep: set<int>)
    requires VarsRight(s, q, [Var(v)] + more, reg, left) && FirstUse(v, r, reg, left, reg2, left2, taken)
    requires RegsRight(s, q, [Var(v)] + more, reg, taken, base, keep)
    ensures RegsRight(Met(s, v, r), q, more, reg2, if r.Some? then taken + {r.value} else taken, base, keep)
  {
    hide Rest;
    assert VarRight(s, v, Rest(q, [Var(v)] + more, v), reg, left);
    forall w
      ensures Rest(q, [Var(v)] + more, w) == Rest(q, more, w) + if v == w then 1 else 0
    {
      RestHead(q, Var(v), more, w);
    }
  }

  /** The first occurrence of a variable: a free cell, and a register for the others. */
  lemma FirstPlaced(s: State, q: seq<Pending>, v: int, more: seq<Term>, r: Option<int>, isLast: bool,
                    reg: map<int, int>, left: map<int, int>, reg2: map<int, int>, left2: map<int, int>, taken: set<int>,
                    base: Machine, keep: set<int>)
    requires Right(s, q, [Var(v)] + more, reg, left, taken, base, keep) && FirstUse(v, r, reg, left, reg2, left2, taken)
    ensures Right(Met(s, v, r), q, more, reg2, left2, if r.Some? then taken + {r.value} else taken, base, keep)
    ensures Placed(s, Met(s, v, r), Var(v), isLast)
  {
    MetQueue(s, q, v, r);
    MetEnv(s, q, v, r);
    MetRegs(s, q, v, more, r, reg, left, reg2, left2, taken, base, keep);
    RestHead(q, Var(v), more, v);
    assert VarRight(s, v, Rest(q, [Var(v)] + more, v), reg, left);
    hide QueueRight, EnvRight, Rest;
    forall w
      ensures Rest(q, more, w) > 0 && w in reg ==> reg[w] in taken
    {
      RestHead(q, Var(v), more, w);
    }
    hide RegsRight, VarRight;
    forall w
      ensures VarRight(Met(s, v, r), w, Rest(q, more, w), reg2, left2)
    {
      MetVar(s, q, v, more, r, reg, left, reg2, left2, taken, w);
    }
  }

  ghost predicate LaterUse(v: int, reg: map<int, int>, left: map<int, int>, left2: map<int, int>, taken: set<int>,
                           taken2: set<int>) {
    && v in left && v in reg
    && if left[v] == 1 then left2 == left && (taken2 == taken || taken2 == taken - {reg[v]})
       else left2 == left[v := left[v] - 1] && taken2 == taken
  }

  lemma LaterVar(s: State, q: seq<Pending>, v: int, more: seq<Term>, c: Cell, reg: map<int, int>, left: map<int, int>,
                 left2: map<int, int>, taken: set<int>, taken2: set<int>, w: int)
    requires VarsRight(s, q, [Var(v)] + more, reg, left) && LaterUse(v, reg, left, left2, taken, taken2)
    ensures VarRight(Grown(s, c, None), w, Rest(q, more, w), reg, left2)
  {
    RestHead(q, Var(v), more, w);
    assert VarRight(s, w, Rest(q, [Var(v)] + more, w), reg, left);
  }

  lemma LaterRegs(s: State, q: seq<Pending>, v: int, more: seq<Term>, c: Cell, reg: map<int, int>, left: map<int, int>,
                  left2: map<int, int>, taken: set<int>, taken2: set<int>, base: Machine, keep: set<int>)
    requires Right(s, q, [Var(v)] + more, reg, left, taken, base, keep) && LaterUse(v, reg, left, left2, taken, taken2)
    ensures RegsRight(Grown(s, c, None), q, more, reg, taken2, base, keep)
  {
    forall i | 0 <= i < |q|
      ensures v in s.env && q[i].reg != reg[v]
    {
      RestHead(q, Var(v), more, v);
      assert VarRight(s, v, Rest(q, [Var(v)] + more, v), reg, left);
      assert PendingRight(s, q[i], s.addrs[i]);
    }
    hide Rest, QueueRight;
    forall w
      ensures Rest(q, [Var(v)] + more, w) == Rest(q, more, w) + if v == w then 1 else 0
    {
      RestHead(q, Var(v), more, w);
    }
    assert VarRight(s, v, Rest(q, [Var(v)] + more, v), reg, left);
    forall w | Rest(q, more, w) > 0 && w in reg
      ensures reg[w] in taken2 && reg[w] !in keep
    {
      assert VarRight(s, w, Rest(q, [Var(v)] + more, w), reg, left);
    }
  }

  /** A later occurrence: a reference to the free cell; after the last one the register may be given back. */
  lemma LaterPlaced(s: State, q: seq<Pending>, v: int, more: seq<Term>, isLast: bool, reg: map<int, int>,
                    left: map<int, int>, left2: map<int, int>, taken: set<int>, taken2: set<int>, base: Machine,
                    keep: set<int>)
    requires Right(s, q, [Var(v)] + more, reg, left, taken, base, keep) && LaterUse(v, reg, left, left2, taken, taken2)
    ensures v in s.env && Refers(s.m, reg[v], s.env[v]) && reg[v] in taken &&
            Deref(s.m.heap, Ref(s.env[v])) == Ref(s.env[v])
    ensures var s2 := Grown(s, Ref(s.env[v]), None);
            Right(s2, q, more, reg, left2, taken2, base, keep) && Placed(s, s2, Var(v), isLast)
  {
    RestHead(q, Var(v), more, v);
    assert VarRight(s, v, Rest(q, [Var(v)] + more, v), reg, left);
    var c := Ref(s.env[v]);
    QueueGrows(s, q, c, None);
    LaterRegs(s, q, v, more, c, reg, left, left2, taken, taken2, base, keep);
    hide QueueRight, Rest, VarRight;
    forall w
      ensures VarRight(Grown(s, c, None), w, Rest(q, more, w), reg, left2)
    {
      LaterVar(s, q, v, more, c, reg, left, left2, taken, taken2, w);
    }
  }

  /** The state after a free cell has been made for a structure, with a register that refers to it. */
  function Opened(s: State, t: Term, r: int): State
    requires Compound(t)
  {
    var top := |s.m.heap|;
    Grown(s, Ref(top), Some(r)).(holes := s.holes[top := Made(t)], addrs := [top] + s.addrs)
  }

  lemma OpenedQueue(s: State, q: seq<Pending>, t: Term, r: int)
    requires QueueRight(s, q) && Compound(t) && forall i :: 0 <= i < |q| ==> q[i].reg != r
    ensures QueueRight(Opened(s, t, r), [Pending(r, t)] + q)
  {
    hide Made;
    var top := |s.m.heap|;
    var s2, q2 := Opened(s, t, r), [Pending(r, t)] + q;
    assert forall i :: 0 < i < |q2| ==> s2.addrs[i] == s.addrs[i - 1] && q2[i] == q[i - 1];
    forall i | 0 < i < |q2|
      ensures PendingRight(s2, q2[i], s2.addrs[i]) && s2.addrs[i] != top
    {
      assert PendingRight(s, q[i - 1], s.addrs[i - 1]);
    }
    assert PendingRight(s2, q2[0], s2.addrs[0]);
  }

  lemma OpenedEnv(s: State, t: Term, r: int)
    requires EnvRight(s) && Compound(t)
    ensures EnvRight(Opened(s, t, r))
  {
  }

  lemma RestMoved(q: seq<Pending>, t: Term, r: int, more: seq<Term>, w: int)
    ensures Rest(q, [t] + more, w) == Rest([Pending(r, t)] + q, more, w)
  {
    RestHead(q, t, more, w);
    assert ([Pending(r, t)] + q)[1..] == q;
  }

  lemma OpenedRegs(s: State, q: seq<Pending>, t: Term, more: seq<Term>, r: int, reg: map<int, int>, taken: set<int>,
                   base: Machine, keep: set<int>)
    requires RegsRight(s, q, [t] + more, reg, taken, base, keep) && r !in taken && Compound(t)
    ensures RegsRight(Opened(s, t, r), [Pending(r, t)] + q, more, reg, taken + {r}, base, keep)
  {
    hide Rest;
    var q2 := [Pending(r, t)] + q;
    forall w
      ensures Rest(q, [t] + more, w) == Rest(q2, more, w)
    {
      RestMoved(q, t, r, more, w);
    }
    assert forall i :: 0 < i < |q2| ==> q2[i] == q[i - 1];
  }

  lemma OpenedVars(s: State, q: seq<Pending>, t: Term, more: seq<Term>, r: int, reg: map<int, int>, left: map<int, int>,
                   taken: set<int>, base: Machine, keep: set<int>)
    requires VarsRight(s, q, [t] + more, reg, left) && RegsRight(s, q, [t] + more, reg, taken, base, keep) &&
             r !in taken && Compound(t)
    ensures VarsRight(Opened(s, t, r), [Pending(r, t)] + q, more, reg, left)
  {
    forall w
      ensures VarRight(Opened(s, t, r), w, Rest([Pending(r, t)] + q, more, w), reg, left)
    {
      RestMoved(q, t, r, more, w);
      assert VarRight(s, w, Rest(q, [t] + more, w), reg, left);
    }
  }

  /** A structure: a free cell, to which a new register refers, and an entry in the queue. */
  lemma OpenedPlaced(s: State, q: seq<Pending>, t: Term, r: int, isLast: bool)
    requires QueueRight(s, q) && Compound(t)
    ensures Placed(s, Opened(s, t, r), Made(t), isLast)
  {
    HolesBelow(s, q);
  }

  lemma StructurePlaced(s: State, q: seq<Pending>, t: Term, more: seq<Term>, r: int, isLast: bool, reg: map<int, int>,
                        left: map<int, int>, taken: set<int>, base: Machine, keep: set<int>)
    requires Right(s, q, [t] + more, reg, left, taken, base, keep) && Compound(t) && r !in taken
    ensures Right(Opened(s, t, r), [Pending(r, t)] + q, more, reg, left, taken + {r}, base, keep) &&
            Placed(s, Opened(s, t, r), Made(t), isLast)
  {
    assert forall i :: 0 <= i < |q| ==> q[i].reg in taken;
    hide QueueRight, EnvRight, VarsRight, RegsRight, Placed;
    OpenedPlaced(s, q, t, r, isLast);
    OpenedQueue(s, q, t, r);
    OpenedEnv(s, t, r);
    OpenedVars(s, q, t, more, r, reg, left, taken, base, keep);
    OpenedRegs(s, q, t, more, r, reg, taken, base, keep);
  }

  /** The list cell and the number of a list that starts with a small integer. */
  function Listed(s: State, n: int): State {
    Grown(Grown(s, CList(|s.m.heap| + 1), None), CInt(n), None)
  }

  lemma ListAlike(q: seq<Pending>, t: Term, more: seq<Term>)
    requires t.List? && t.car.Int?
    ensures Alike(q, [t] + more, q, [t.cdr] + more)
  {
    forall v
      ensures Rest(q, [t.cdr] + more, v) == Rest(q, [t] + more, v)
    {
      RestHead(q, t, more, v);
      RestHead(q, t.cdr, more, v);
    }
  }

  lemma ListRight(s: State, q: seq<Pending>, t: Term, n: int, more: seq<Term>, reg: map<int, int>,
                  left: map<int, int>, taken: set<int>, base: Machine, keep: set<int>)
    requires Right(s, q, [t] + more, reg, left, taken, base, keep) && t.List? && t.car.Int?
    ensures Right(Listed(s, n), q, [t.cdr] + more, reg, left, taken, base, keep)
    ensures Listed(s, n).others == s.others
  {
    hide Right;
    ListAlike(q, t, more);
    assert Alike(q, [t.cdr] + more, q, [t.cdr] + more);
    GrowRight(s, q, [t] + more, [t.cdr] + more, CList(|s.m.heap| + 1), reg, left, taken, base, keep);
    GrowRight(Grown(s, CList(|s.m.heap| + 1), None), q, [t.cdr] + more, [t.cdr] + more, CInt(n), reg, left,
              taken, base, keep);
  }

  lemma ListPlaced(s: State, s2: State, n: int, cdr: Term)
    requires Placed(Listed(s, n), s2, cdr, true)
    ensures Placed(s, s2, List(Int(n), cdr), true)
  {
    var top := |s.m.heap|;
    var s1 := Listed(s, n);
    assert s1.m.heap[top] == CList(top + 1) && s1.m.heap[top + 1] == CInt(n);
    assert s2.m.heap[top] == CList(top + 1) && s2.m.heap[top + 1] == CInt(n);
    assert s.m.heap <= s1.m.heap;
  }

  // ---------------------------------------------------------------- generating the arguments

  datatype Occurrence = FirstOfMore | Only | Subsequent | Last

  /** The variables of the clause: their registers and how often they are still to occur. */
  class Variables {
    var reg: map<int, int>
    var left: map<int, int>

    constructor (left: map<int, int>)
      ensures reg == map[] && this.left == left
    {
      reg, this.left := map[], left;
    }

    /** Counts an occurrence of the variable `v`; the first of several takes a register, the last gives it back. */
    method Occur(v: int, regs: Registers) returns (ok: bool, occs: Occurrence, r: int)
      requires regs.Valid() && v in left && (v in reg && left[v] == 1 ==> reg[v] in regs.Taken())
      modifies this, regs, regs.stat
      ensures ok ==> regs.Valid()
      ensures ok && v !in old(reg) ==>
        (var got := if occs == Only then None else Some(r);
         FirstUse(v, got, old(reg), old(left), reg, left, old(regs.Taken())) &&
         regs.Taken() == if got.Some? then old(regs.Taken()) + {r} else old(regs.Taken())) &&
        (occs == FirstOfMore || occs == Only)
      ensures ok && v in old(reg) ==>
        (LaterUse(v, old(reg), old(left), left, old(regs.Taken()), regs.Taken()) && reg == old(reg) && r == reg[v]) &&
        occs == (if old(left[v]) == 1 then Last else Subsequent) &&
        regs.Taken() == if occs == Last && old(regs.stat[..])[r] == RVar then old(regs.Taken()) - {r}
                        else old(regs.Taken())
      ensures ok && occs == FirstOfMore ==> regs.stat[r] == RVar
      ensures ok ==> forall x :: x in regs.Taken() && x in old(regs.Taken()) ==> regs.stat[x] == old(regs.stat[x])
      ensures ok <==> v in old(reg) || old(left[v]) == 1 || |old(regs.Taken())| < MaxRegs - 1
    {
      ok := true;
      var n := left[v] - 1;
      if v !in reg {
        if n != 0 {
          left := left[v := n];
          occs := FirstOfMore;
          ok, r := regs.Get(RVar);
          if !ok { return; }
        } else {
          occs, r := Only, -1;
        }
        reg := reg[v := r];
      } else {
        r := reg[v];
        if n != 0 {
          left := left[v := n];
          occs := Subsequent;
        } else {
          occs := Last;
          regs.ReleasePerm(reg[v]);
        }
      }
    }
  }

  // ---------------------------------------------------------------- registers are accounted for

  lemma NeededTaken(s: State, q: seq<Pending>, more: seq<Term>, reg: map<int, int>, left: map<int, int>,
                    taken: set<int>, base: Machine, keep: set<int>)
    requires Right(s, q, more, reg, left, taken, base, keep)
    ensures forall i :: 0 <= i < |q| ==> q[i].reg in taken
    ensures forall v :: Rest(q, more, v) > 0 && v in reg ==> reg[v] in taken
  {
  }

  lemma SameServes(x: int, q: seq<Pending>, more: seq<Term>, q2: seq<Pending>, more2: seq<Term>, reg: map<int, int>)
    requires Alike(q, more, q2, more2) && Serves(x, q, more, reg)
    requires forall i :: 0 <= i < |q| && q[i].reg == x ==> exists j :: 0 <= j < |q2| && q2[j].reg == x
    ensures Serves(x, q2, more2, reg)
  {
    if v :| v in reg && reg[v] == x && Rest(q, more, v) > 0 {
      assert Rest(q2, more2, v) > 0;
    }
  }

  /** Code that needs no register for longer. */
  lemma SameAccount(others: set<int>, q: seq<Pending>, more: seq<Term>, more2: seq<Term>, reg: map<int, int>,
                    stat: seq<int>, stat2: seq<int>, taken: set<int>)
    requires Accounted(others, q, more, reg, stat, taken) && Alike(q, more, q, more2) && |stat2| == |stat|
    requires forall i :: 0 <= i < |q| ==> q[i].reg in taken
    requires forall v :: Rest(q, more, v) > 0 && v in reg ==> reg[v] in taken
    requires forall x :: x in taken && 0 <= x < |stat| ==> stat2[x] == stat[x]
    ensures Accounted(others, q, more2, reg, stat2, taken)
  {
    hide Rest, Serves;
    forall x | x in taken && x !in others
      ensures Serves(x, q, more2, reg)
    {
      SameServes(x, q, more, q, more2, reg);
    }
  }

  /** A register for a queued subterm. */
  lemma OpenedAccount(others: set<int>, q: seq<Pending>, t: Term, more: seq<Term>, r: int, reg: map<int, int>,
                      stat: seq<int>, stat2: seq<int>, taken: set<int>)
    requires Accounted(others, q, [t] + more, reg, stat, taken) && |stat2| == |stat| && r !in taken
    requires forall i :: 0 <= i < |q| ==> q[i].reg in taken
    requires forall v :: Rest(q, [t] + more, v) > 0 && v in reg ==> reg[v] in taken
    requires forall x :: x in taken && 0 <= x < |stat| ==> stat2[x] == stat[x]
    requires 0 <= r < |stat2| && stat2[r] == TVar
    ensures Accounted(others, [Pending(r, t)] + q, more, reg, stat2, taken + {r})
  {
    hide Rest, Serves;
    var q2 := [Pending(r, t)] + q;
    assert forall i :: 0 < i < |q2| ==> q2[i] == q[i - 1];
    forall w
      ensures Rest(q, [t] + more, w) == Rest(q2, more, w)
    {
      RestMoved(q, t, r, more, w);
    }
    forall x | x in taken && x !in others
      ensures Serves(x, q2, more, reg)
    {
      assert forall i :: 0 <= i < |q| ==> q2[i + 1] == q[i];
      SameServes(x, q, [t] + more, q2, more, reg);
    }
    OwnServes(r, t, q, more, reg);
  }

  lemma OwnServes(r: int, t: Term, q: seq<Pending>, more: seq<Term>, reg: map<int, int>)
    ensures Serves(r, [Pending(r, t)] + q, more, reg)
  {
    assert ([Pending(r, t)] + q)[0].reg == r;
  }

  lemma VarServes(x: int, q: seq<Pending>, more: seq<Term>, more2: seq<Term>, reg: map<int, int>, reg2: map<int, int>)
    requires Serves(x, q, more, reg)
    requires forall v :: v in reg && reg[v] == x && Rest(q, more, v) > 0 ==>
               v in reg2 && reg2[v] == x && Rest(q, more2, v) > 0
    ensures Serves(x, q, more2, reg2)
  {
    if v :| v in reg && reg[v] == x && Rest(q, more, v) > 0 {
      assert Rest(q, more2, v) > 0;
    }
  }

  /** The first occurrence of a variable. */
  lemma FirstAccount(others: set<int>, q: seq<Pending>, v: int, more: seq<Term>, got: Option<int>, reg: map<int, int>,
                     left: map<int, int>, reg2: map<int, int>, left2: map<int, int>, stat: seq<int>, stat2: seq<int>,
                     taken: set<int>)
    requires Accounted(others, q, [Var(v)] + more, reg, stat, taken) && |stat2| == |stat|
    requires FirstUse(v, got, reg, left, reg2, left2, taken) && left[v] == Rest(q, [Var(v)] + more, v)
    requires forall i :: 0 <= i < |q| ==> q[i].reg in taken
    requires forall w :: Rest(q, [Var(v)] + more, w) > 0 && w in reg ==> reg[w] in taken
    requires forall x :: x in taken && 0 <= x < |stat| ==> stat2[x] == stat[x]
    requires got.Some? ==> 0 <= got.value < |stat2| && stat2[got.value] == RVar
    ensures Accounted(others, q, more, reg2, stat2, if got.Some? then taken + {got.value} else taken)
  {
    hide Rest, Serves;
    forall w
      ensures Rest(q, [Var(v)] + more, w) == Rest(q, more, w) + if v == w then 1 else 0
    {
      RestHead(q, Var(v), more, w);
    }
    forall x | x in taken && x !in others
      ensures Serves(x, q, more, reg2)
    {
      VarServes(x, q, [Var(v)] + more, more, reg, reg2);
    }
    if got.Some? {
      assert Rest(q, more, v) > 0;
      MetServes(got.value, q, v, more, reg2);
    }
  }

  lemma MetServes(r: int, q: seq<Pending>, v: int, more: seq<Term>, reg: map<int, int>)
    requires v in reg && reg[v] == r && Rest(q, more, v) > 0
    ensures Serves(r, q, more, reg)
  {
  }

  /** A later occurrence, the last of which gives the register back. */
  lemma LaterAccount(others: set<int>, q: seq<Pending>, v: int, more: seq<Term>, reg: map<int, int>,
                     left: map<int, int>, stat: seq<int>, stat2: seq<int>, taken: set<int>, taken2: set<int>)
    requires Accounted(others, q, [Var(v)] + more, reg, stat, taken) && |stat2| == |stat|
    requires v in reg && v in left && left[v] == Rest(q, [Var(v)] + more, v)
    requires forall w :: Rest(q, [Var(v)] + more, w) > 0 && w in reg ==> reg[w] in taken
    requires forall i :: 0 <= i < |q| ==> q[i].reg in taken2
    requires forall w :: Rest(q, more, w) > 0 && w in reg ==> reg[w] in taken2
    requires taken2 <= taken && forall x :: x in taken2 && 0 <= x < |stat| ==> stat2[x] == stat[x]
    requires left[v] == 1 && 0 <= reg[v] < |stat| && stat[reg[v]] == RVar ==> reg[v] !in taken2
    ensures Accounted(others, q, more, reg, stat2, taken2)
  {
    hide Rest, Serves;
    forall w
      ensures Rest(q, [Var(v)] + more, w) == Rest(q, more, w) + if v == w then 1 else 0
    {
      RestHead(q, Var(v), more, w);
    }
    forall x | x in taken2 && x !in others
      ensures Serves(x, q, more, reg)
    {
      VarServes(x, q, [Var(v)] + more, more, reg, reg);
    }
  }

  /** Taking the last entry from the queue gives its register back. */
  lemma TakenAccount(others: set<int>, q: seq<Pending>, p: Pending, later: seq<Term>, reg: map<int, int>,
                     stat: seq<int>, stat2: seq<int>, taken: set<int>, taken2: set<int>)
    requires Accounted(others, q + [p], later, reg, stat, taken) && |stat2| == |stat| && Compound(p.term)
    requires taken2 == taken - {p.reg} && forall x :: x in taken2 && 0 <= x < |stat| ==> stat2[x] == stat[x]
    requires forall i :: 0 <= i < |q| ==> q[i].reg in taken2
    requires forall v :: Rest(q, Args(p.term) + later, v) > 0 && v in reg ==> reg[v] in taken2
    ensures Accounted(others, q, Args(p.term) + later, reg, stat2, taken2)
  {
    hide Rest, Serves;
    forall v
      ensures Rest(q + [p], later, v) == Rest(q, Args(p.term) + later, v)
    {
      RestArgs(q, p, later, v);
    }
    assert forall i :: 0 <= i < |q| ==> (q + [p])[i] == q[i];
    forall x | x in taken2 && x !in others
      ensures Serves(x, q, Args(p.term) + later, reg)
    {
      SameServes(x, q + [p], later, q, Args(p.term) + later, reg);
    }
  }

  lemma RotatedAccount(others: set<int>, q: seq<Pending>, k: nat, later: seq<Term>, reg: map<int, int>,
                       stat: seq<int>, taken: set<int>)
    requires Accounted(others, q, later, reg, stat, taken) && k <= |q|
    ensures Accounted(others, Rotated(q, k), later, reg, stat, taken)
  {
    hide Rest, Serves, Rotated;
    RotatedCounts(q, k, later);
    RotatedBack(q, k);
    forall x | x in taken && x !in others
      ensures Serves(x, Rotated(q, k), later, reg)
    {
      RotatedHas(x, q, k);
      SameServes(x, q, later, Rotated(q, k), later, reg);
    }
  }

  lemma RotatedHas(x: int, q: seq<Pending>, k: nat)
    requires k <= |q|
    ensures forall i :: 0 <= i < |q| && q[i].reg == x ==>
              exists j :: 0 <= j < |Rotated(q, k)| && Rotated(q, k)[j].reg == x
  {
    forall i | 0 <= i < |q| && q[i].reg == x
      ensures exists j :: 0 <= j < |Rotated(q, k)| && Rotated(q, k)[j].reg == x
    {
      assert Rotated(q, k)[if i >= k then i - k else i + (|q| - k)] == q[i];
    }
  }

  /** All that holds between two pieces of generated code. */
  ghost predicate Going(queue: Queue<Pending>, regs: Registers, vars: Variables, code: seq<Instr>, s: State,
                        q: seq<Pending>, more: seq<Term>, m0: Machine, base: Machine, keep: set<int>)
    reads queue`top, queue`bottom, queue.ring, regs, regs.stat, vars
  {
    && queue.Valid() && regs.Valid() && queue.Contents() == q && Exec(code, m0) == Some(s.m)
    && Right(s, q, more, vars.reg, vars.left, regs.Taken(), base, keep)
    && Accounted(s.others, q, more, vars.reg, regs.stat[..], regs.Taken())
  }

  function ConstantInstr(t: Term): Instr
    requires t.Con? || t.Int? || t.Nil?
  {
    match t case Con(k) => BldCon(k) case Int(n) => BldInt(n) case Nil => BldNil
  }

  function ConstantCell(t: Term): Cell
    requires t.Con? || t.Int? || t.Nil?
  {
    match t case Con(k) => CCon(k) case Int(n) => CInt(n) case Nil => CNil
  }

  lemma ConstantCode(t: Term, code: seq<Instr>, s: State, m0: Machine)
    requires (t.Con? || t.Int? || t.Nil?) && Exec(code, m0) == Some(s.m)
    ensures Exec(code + [ConstantInstr(t)], m0) == Some(Grown(s, ConstantCell(t), None).m)
    ensures Heads(code + [ConstantInstr(t)]) == Heads(code)
  {
    HeadsOne(code, ConstantInstr(t));
    ExecOne(code, ConstantInstr(t), m0);
  }

  /** The instruction for an occurrence of a variable does what the state says. */
  lemma {:induction false} VariableCode(code: seq<Instr>, m0: Machine, s: State, v: int, r: int)
    requires Exec(code, m0) == Some(s.m)
    ensures Exec(code + [BldTvar(r)], m0) == Some(Met(s, v, Some(r)).m)
    ensures Exec(code + [BldAvar], m0) == Some(Met(s, v, None).m)
    ensures v in s.env && Refers(s.m, r, s.env[v]) && Deref(s.m.heap, Ref(s.env[v])) == Ref(s.env[v]) ==>
              Exec(code + [BldTval(r)], m0) == Some(Grown(s, Ref(s.env[v]), None).m)
  {
    hide Exec;
    ExecOne(code, BldTvar(r), m0);
    ExecOne(code, BldAvar, m0);
    ExecOne(code, BldTval(r), m0);
  }

  lemma VariablePlaced(s: State, q: seq<Pending>, v: int, more: seq<Term>, occs: Occurrence, r: int, isLast: bool,
                       code: seq<Instr>, m0: Machine, reg: map<int, int>, left: map<int, int>, reg2: map<int, int>,
                       left2: map<int, int>, taken: set<int>, taken2: set<int>, base: Machine, keep: set<int>)
    returns (s2: State)
    requires Right(s, q, [Var(v)] + more, reg, left, taken, base, keep) && Exec(code, m0) == Some(s.m)
    requires v !in reg ==> (occs == FirstOfMore || occs == Only)
    requires v !in reg ==> FirstUse(v, if occs == Only then None else Some(r), reg, left, reg2, left2, taken)
    requires v !in reg ==> taken2 == if occs == Only then taken else taken + {r}
    requires v in reg ==>
               (occs == Subsequent || occs == Last) && LaterUse(v, reg, left, left2, taken, taken2) && reg2 == reg &&
               r == reg[v]
    ensures Right(s2, q, more, reg2, left2, taken2, base, keep) && Placed(s, s2, Var(v), isLast)
    ensures s2.others == s.others
    ensures Exec(code + [if occs == FirstOfMore then BldTvar(r) else if occs == Only then BldAvar else BldTval(r)],
                 m0) == Some(s2.m)
  {
    hide Right, Placed;
    VariableCode(code, m0, s, v, r);
    if v !in reg {
      var got := if occs == Only then None else Some(r);
      s2 := Met(s, v, got);
      FirstPlaced(s, q, v, more, got, isLast, reg, left, reg2, left2, taken, base, keep);
    } else {
      LaterPlaced(s, q, v, more, isLast, reg, left, left2, taken, taken2, base, keep);
      s2 := Grown(s, Ref(s.env[v]), None);
    }
  }

  /** Generates code for a variable in the next cell. */
  method GenVariable(v: int, isLast: bool, queue: Queue<Pending>, regs: Registers, vars: Variables, code: seq<Instr>,
                     ghost s: State, ghost q: seq<Pending>, ghost more: seq<Term>, ghost m0: Machine,
                     ghost base: Machine, ghost keep: set<int>)
    returns (ok: bool, code2: seq<Instr>, ghost s2: State)
    requires Going(queue, regs, vars, code, s, q, [Var(v)] + more, m0, base, keep)
    modifies vars, regs, regs.stat
    ensures ok ==> Going(queue, regs, vars, code2, s2, q, more, m0, base, keep) && Placed(s, s2, Var(v), isLast)
    ensures ok ==> regs.Valid() && |regs.Taken()| <= |old(regs.Taken())| + 1
    ensures ok ==> Heads(code2) == Heads(code)
    ensures |old(regs.Taken())| < MaxRegs - 1 ==> ok
  {
    hide Heads, Right, Placed, Exec, FirstUse, LaterUse, Accounted, Registers.Valid, Registers.Taken, FreeList, InUse,
        Queue.Contents;
    ghost var taken, reg, left, stat := regs.Taken(), vars.reg, vars.left, regs.stat[..];
    VariableReady(s, q, v, more, reg, left, taken, base, keep);
    var occs, r;
    ok, occs, r := vars.Occur(v, regs);
    code2, s2 := code, s;
    if !ok { return; }
    s2 := VariablePlaced(s, q, v, more, occs, r, isLast, code, m0, reg, left, vars.reg, vars.left, taken, regs.Taken(),
                         base, keep);
    VariableAccount(s, s2, q, v, more, occs, r, reg, left, vars.reg, vars.left, stat, regs.stat[..], taken,
                    regs.Taken(), base, keep);
    HeadsOne(code, BldTvar(r));
    HeadsOne(code, BldAvar);
    HeadsOne(code, BldTval(r));
    match occs {
      case FirstOfMore => code2 := code + [BldTvar(r)];
      case Only => code2 := code + [BldAvar];
      case Subsequent => code2 := code + [BldTval(r)];
      case Last => code2 := code + [BldTval(r)];
    }
  }

  lemma VariableAccount(s: State, s2: State, q: seq<Pending>, v: int, more: seq<Term>, occs: Occurrence, r: int,
                        reg: map<int, int>, left: map<int, int>, reg2: map<int, int>, left2: map<int, int>,
                        stat: seq<int>, stat2: seq<int>, taken: set<int>, taken2: set<int>, base: Machine,
                        keep: set<int>)
    requires Right(s, q, [Var(v)] + more, reg, left, taken, base, keep) &&
             Accounted(s.others, q, [Var(v)] + more, reg, stat, taken)
    requires Right(s2, q, more, reg2, left2, taken2, base, keep) && |stat2| == |stat| && s2.others == s.others
    requires v !in reg ==> (occs == FirstOfMore || occs == Only)
    requires v !in reg ==> FirstUse(v, if occs == Only then None else Some(r), reg, left, reg2, left2, taken)
    requires v !in reg ==> taken2 == if occs == Only then taken else taken + {r}
    requires v !in reg && occs == FirstOfMore ==> 0 <= r < |stat2| && stat2[r] == RVar
    requires v in reg ==> LaterUse(v, reg, left, left2, taken, taken2) && reg2 == reg
    requires v in reg && left[v] == 1 && 0 <= reg[v] < |stat| && stat[reg[v]] == RVar ==> reg[v] !in taken2
    requires forall x :: x in taken && x in taken2 && 0 <= x < |stat| ==> stat2[x] == stat[x]
    ensures Accounted(s2.others, q, more, reg2, stat2, taken2)
  {
    VariableCount(s, q, v, more, reg, left, taken, base, keep);
    NeededTaken(s, q, [Var(v)] + more, reg, left, taken, base, keep);
    NeededTaken(s2, q, more, reg2, left2, taken2, base, keep);
    hide Right, Accounted, Rest;
    if v !in reg {
      FirstAccount(s.others, q, v, more, if occs == Only then None else Some(r), reg, left, reg2, left2, stat, stat2,
                   taken);
    } else {
      LaterAccount(s.others, q, v, more, reg, left, stat, stat2, taken, taken2);
    }
  }

  lemma VariableCount(s: State, q: seq<Pending>, v: int, more: seq<Term>, reg: map<int, int>, left: map<int, int>,
                      taken: set<int>, base: Machine, keep: set<int>)
    requires Right(s, q, [Var(v)] + more, reg, left, taken, base, keep)
    ensures v in left && left[v] == Rest(q, [Var(v)] + more, v)
  {
    RestHead(q, Var(v), more, v);
    assert VarRight(s, v, Rest(q, [Var(v)] + more, v), reg, left);
  }

  lemma VariableReady(s: State, q: seq<Pending>, v: int, more: seq<Term>, reg: map<int, int>, left: map<int, int>,
                      taken: set<int>, base: Machine, keep: set<int>)
    requires Right(s, q, [Var(v)] + more, reg, left, taken, base, keep)
    ensures v in left && (v in reg ==> reg[v] in taken)
  {
    RestHead(q, Var(v), more, v);
    assert VarRight(s, v, Rest(q, [Var(v)] + more, v), reg, left);
  }

  function Size(t: Term): nat
    decreases t
  {
    match t
    case List(car, cdr) => 1 + Size(car) + Size(cdr)
    case Str(_, args) => 1 + SizeAll(args)
    case _ => 1
  }

  function SizeAll(ts: seq<Term>): nat
    decreases ts
  {
    if ts == [] then 0 else Size(ts[0]) + SizeAll(ts[1..])
  }

  // How much is still to be built.
  function Weight(q: seq<Pending>): nat {
    if q == [] then 0 else Size(q[0].term) + Weight(q[1..])
  }

  lemma {:induction false} WeightConcat(a: seq<Pending>, b: seq<Pending>)
    ensures Weight(a + b) == Weight(a) + Weight(b)
  {
    if a == [] {
      assert a + b == b;
    } else {
      assert (a + b)[0] == a[0] && (a + b)[1..] == a[1..] + b;
      WeightConcat(a[1..], b);
    }
  }

  lemma WeightAdd(p: Pending, q: seq<Pending>)
    ensures Weight([p] + q) == Size(p.term) + Weight(q)
  {
    assert ([p] + q)[1..] == q;
  }

  // ---------------------------------------------------------------- the order of structures

  /** The structures still to be built, the top of the queue first. */
  function Todo(q: seq<Pending>): seq<Head> {
    if q == [] then [] else OrderArg(q[|q| - 1].term, false) + Todo(q[..|q| - 1])
  }

  lemma {:induction false} TodoConcat(a: seq<Pending>, b: seq<Pending>)
    ensures Todo(a + b) == Todo(b) + Todo(a)
    decreases |b|
  {
    if b == [] {
      assert a + b == a;
    } else {
      assert (a + b)[..|a + b| - 1] == a + b[..|b| - 1];
      TodoConcat(a, b[..|b| - 1]);
    }
  }

  lemma TodoOne(p: Pending, q: seq<Pending>)
    ensures Todo([p] + q) == Todo(q) + OrderArg(p.term, false) && Todo(q + [p]) == OrderArg(p.term, false) + Todo(q)
  {
    TodoConcat([p], q);
    TodoConcat(q, [p]);
    assert [p][..0] == [];
  }

  /** Rotating puts the structures added last in front. */
  lemma RotatedTodo(q0: seq<Pending>, q: seq<Pending>, k: nat, added: seq<Head>)
    requires k <= |q| && q[k..] == q0 && Todo(q) == Todo(q0) + added
    ensures Todo(Rotated(q, k)) == added + Todo(q0)
  {
    assert q == q[..k] + q[k..];
    TodoConcat(q[..k], q0);
    assert Todo(q)[|Todo(q0)|..] == added == Todo(q[..k]);
    TodoConcat(q0, q[..k]);
  }

  lemma TodoLast(q: seq<Pending>, p: Pending)
    requires Compound(p.term)
    ensures Todo(q + [p]) == [HeadOf(p.term)] + OrderArgs(Args(p.term)) + Todo(q)
  {
    TodoOne(p, q);
    OrderOfArgs(p.term);
  }

  lemma StructureGoes(s: State, q: seq<Pending>, t: Term, more: seq<Term>, r: int, isLast: bool, code: seq<Instr>,
                      m0: Machine, reg: map<int, int>, left: map<int, int>, taken: set<int>, base: Machine,
                      keep: set<int>)
    requires Right(s, q, [t] + more, reg, left, taken, base, keep) && Compound(t) && r !in taken &&
             Exec(code, m0) == Some(s.m)
    ensures Exec(code + [BldTvar(r)], m0) == Some(Opened(s, t, r).m)
    ensures Placed(s, Opened(s, t, r), Made(t), isLast)
    ensures Right(Opened(s, t, r), [Pending(r, t)] + q, more, reg, left, taken + {r}, base, keep)
    ensures Weight([Pending(r, t)] + q) == Weight(q) + Size(t) && Opened(s, t, r).others == s.others
  {
    hide Right, Placed, Exec;
    ExecOne(code, BldTvar(r), m0);
    WeightAdd(Pending(r, t), q);
    StructurePlaced(s, q, t, more, r, isLast, reg, left, taken, base, keep);
  }

  /** Generates a cell for a structure, which is queued. */
  method GenStructure(t: Term, isLast: bool, queue: Queue<Pending>, regs: Registers, vars: Variables, code: seq<Instr>,
                      ghost s: State, ghost q: seq<Pending>, ghost more: seq<Term>, ghost m0: Machine,
                      ghost base: Machine, ghost keep: set<int>)
    returns (ok: bool, code2: seq<Instr>, ghost s2: State, ghost q2: seq<Pending>)
    requires Going(queue, regs, vars, code, s, q, [t] + more, m0, base, keep) && Compound(t)
    modifies queue`bottom, queue`added, queue.ring, regs, regs.stat
    ensures ok ==> Going(queue, regs, vars, code2, s2, q2, more, m0, base, keep) && Placed(s, s2, Made(t), isLast)
    ensures ok ==> queue.added - old(queue.added) == |q2| - |q| == 1 && Weight(q2) == Weight(q) + Size(t)
    ensures ok ==> q2[0].term == t && q2[1..] == q && regs.Valid() && |regs.Taken()| == |old(regs.Taken())| + 1
    ensures ok ==> Heads(code2) == Heads(code)
    ensures ok <==> |old(regs.Taken())| < MaxRegs - 1 && |q| < QueueSize - 1
  {
    hide Heads, Right, Placed, Exec, Queue.Contents, Between, Weight, Opened, Accounted, Registers.Valid,
        Registers.Taken,
        FreeList, InUse;
    ghost var taken, stat := regs.Taken(), regs.stat[..];
    var r;
    ok, r := regs.Get(TVar);
    code2, s2, q2 := code, s, q;
    if !ok { return; }
    assert queue.Contents() == q;
    StructureGoes(s, q, t, more, r, isLast, code, m0, vars.reg, vars.left, taken, base, keep);
    NeededTaken(s, q, [t] + more, vars.reg, vars.left, taken, base, keep);
    OpenedAccount(s.others, q, t, more, r, vars.reg, stat, regs.stat[..], taken);
    HeadsOne(code, BldTvar(r));
    code2 := code + [BldTvar(r)];
    s2, q2 := Opened(s, t, r), [Pending(r, t)] + q;
    ok := queue.Add(Pending(r, t));
    assert regs.Taken() == taken + {r};
  }

  lemma ListCode(code: seq<Instr>, m0: Machine, s: State, n: int)
    requires Exec(code, m0) == Some(s.m)
    ensures Exec(code + [BldTvarListNumcon(n)], m0) == Some(Listed(s, n).m)
  {
    ExecOne(code, BldTvarListNumcon(n), m0);
  }

  /** Generates the list cell and the number for a list that starts with a small integer; no register is needed. */
  method GenListNumcon(t: Term, queue: Queue<Pending>, regs: Registers, vars: Variables, code: seq<Instr>,
                       ghost s: State, ghost q: seq<Pending>, ghost more: seq<Term>, ghost m0: Machine,
                       ghost base: Machine, ghost keep: set<int>)
    returns (ok: bool, code2: seq<Instr>, ghost s2: State)
    requires Going(queue, regs, vars, code, s, q, [t] + more, m0, base, keep) && t.List? && t.car.Int?
    modifies regs, regs.stat
    ensures s2 == Listed(s, Narrow(t.car.n))
    ensures ok ==> Going(queue, regs, vars, code2, s2, q, [t.cdr] + more, m0, base, keep)
    ensures ok ==> regs.Valid() && |regs.Taken()| == |old(regs.Taken())|
    ensures ok ==> Heads(code2) == Heads(code)
    ensures ok <==> |old(regs.Taken())| < MaxRegs - 1
  {
    hide Heads, Right, Exec, Queue.Contents, Between, Listed, Accounted, Registers.Valid, Registers.Taken,
        FreeList, InUse;
    ghost var taken, stat := regs.Taken(), regs.stat[..];
    var r;
    ok, r := regs.Get(TVar);
    var num := Narrow(t.car.n);
    code2, s2 := code, Listed(s, num);
    if !ok { return; }
    ListCode(code, m0, s, num);
    ListRight(s, q, t, num, more, vars.reg, vars.left, taken, base, keep);
    HeadsOne(code, BldTvarListNumcon(num));
    code2 := code + [BldTvarListNumcon(num)];
    regs.Release(r);
    assert regs.Taken() == taken;
    ListAlike(q, t, more);
    NeededTaken(s, q, [t] + more, vars.reg, vars.left, taken, base, keep);
    SameAccount(s.others, q, [t] + more, [t.cdr] + more, vars.reg, stat, regs.stat[..], taken);
  }

  /** Generates code for a constant in the next cell. */
  method GenConst(t: Term, isLast: bool, queue: Queue<Pending>, regs: Registers, vars: Variables, code: seq<Instr>,
                  ghost s: State, ghost q: seq<Pending>, ghost more: seq<Term>, ghost m0: Machine, ghost base: Machine,
                  ghost keep: set<int>)
    returns (code2: seq<Instr>, ghost s2: State)
    requires Going(queue, regs, vars, code, s, q, [t] + more, m0, base, keep) && !Compound(t) && !t.Var?
    ensures Going(queue, regs, vars, code2, s2, q, more, m0, base, keep) && Placed(s, s2, t, isLast)
    ensures Heads(code2) == Heads(code)
  {
    hide Exec, Right, Placed, Accounted, Heads;
    ConstantCode(t, code, s, m0);
    ConstantAlike(q, t, more);
    NeededTaken(s, q, [t] + more, vars.reg, vars.left, regs.Taken(), base, keep);
    SameAccount(s.others, q, [t] + more, more, vars.reg, regs.stat[..], regs.stat[..], regs.Taken());
    code2 := code + [ConstantInstr(t)];
    s2 := Grown(s, ConstantCell(t), None);
    ConstantPlaced(s, q, t, more, ConstantCell(t), isLast, vars.reg, vars.left, regs.Taken(), base, keep);
  }

  lemma SizeTail(t: Term)
    requires t.List?
    ensures Size(t.cdr) < Size(t)
  {
  }

  lemma GoingValid(queue: Queue<Pending>, regs: Registers, vars: Variables, code: seq<Instr>, s: State, q: seq<Pending>,
                   more: seq<Term>, m0: Machine, base: Machine, keep: set<int>)
    requires Going(queue, regs, vars, code, s, q, more, m0, base, keep)
    ensures regs.Valid()
  {
  }

  // ---------------------------------------------------------------- room for a term

  ghost function Used(regs: Registers): nat
    reads regs, regs.stat
  {
    if regs.Valid() then |regs.Taken()| else 0
  }

  lemma UsedIs(regs: Registers)
    requires regs.Valid()
    ensures Used(regs) == |regs.Taken()|
  {
  }

  /** With `used` registers in use, neither they nor the queue can run out before everything queued and `more` have been
      built: each node of a term needs a register once, and the queue holds at most one entry for each. */
  ghost predicate Enough(used: nat, q: seq<Pending>, more: seq<Term>) {
    used + Weight(q) - |q| + SizeAll(more) < MaxRegs && Weight(q) + SizeAll(more) < QueueSize
  }

  lemma {:induction false} WeightBound(q: seq<Pending>)
    ensures |q| <= Weight(q)
  {
    if q != [] { WeightBound(q[1..]); }
  }

  lemma SizeFirst(t: Term, more: seq<Term>)
    ensures SizeAll([t] + more) == Size(t) + SizeAll(more) && Size(t) > 0
  {
    assert ([t] + more)[1..] == more;
  }

  /** There is a register for one more node, and room in the queue. */
  lemma EnoughNow(used: nat, q: seq<Pending>, t: Term, more: seq<Term>)
    requires Enough(used, q, [t] + more)
    ensures used < MaxRegs - 1 && |q| < QueueSize - 1
    ensures forall n: nat :: n <= used + 1 ==> Enough(n, q, more)
  {
    SizeFirst(t, more);
    WeightBound(q);
  }

  lemma EnoughQueued(used: nat, q: seq<Pending>, p: Pending, more: seq<Term>)
    requires Enough(used, q, [p.term] + more)
    ensures Enough(used + 1, [p] + q, more)
  {
    SizeFirst(p.term, more);
    WeightAdd(p, q);
  }

  lemma EnoughTail(used: nat, q: seq<Pending>, t: Term, more: seq<Term>)
    requires Enough(used, q, [t] + more) && t.List?
    ensures Enough(used, q, [t.cdr] + more)
  {
    SizeFirst(t, more);
    SizeFirst(t.cdr, more);
  }

  lemma EnoughStill(q: seq<Pending>, q2: seq<Pending>)
    requires |q2| == |q| && Weight(q2) == Weight(q)
    ensures forall n: nat :: Enough(n, q, []) ==> Enough(n, q2, [])
  {
  }

  lemma EnoughTaken(used: nat, n: nat, q: seq<Pending>, p: Pending)
    requires Enough(used, q + [p], []) && n <= used && Compound(p.term)
    ensures Enough(n, q, Args(p.term))
  {
    WeightConcat(q, [p]);
    WeightAdd(p, []);
    assert [p] + [] == [p];
    SizeArgs(p.term);
  }

  lemma NoneQueued(q: seq<Pending>, t: Term, isLast: bool)
    requires !Compound(t)
    ensures Todo(q) == Todo(q) + OrderArg(t, isLast) && q[|q| - |q|..] == q
  {
  }

  lemma {:induction false} StructureQueued(used: nat, q: seq<Pending>, q2: seq<Pending>, t: Term, now: seq<Term>)
    requires q2 != [] && q2[0].term == t && q2[1..] == q
    ensures Todo(q2) == Todo(q) + OrderArg(t, false) && |q2| == |q| + 1 && q2[|q2| - |q|..] == q
    ensures Enough(used, q, [t] + now) ==> Enough(used + 1, q2, now)
  {
    assert q2 == [q2[0]] + q;
    TodoOne(q2[0], q);
    if Enough(used, q, [t] + now) { EnoughQueued(used, q, q2[0], now); }
  }

  /** Generates code for the next argument of a structure; `now` are the arguments that follow it. */
  method GenInst(t: Term, isLast: bool, queue: Queue<Pending>, regs: Registers, vars: Variables, code: seq<Instr>,
                 ghost s: State, ghost q: seq<Pending>, ghost more: seq<Term>, ghost m0: Machine, ghost base: Machine,
                 ghost keep: set<int>, ghost now: seq<Term>)
    returns (ok: bool, code2: seq<Instr>, ghost s2: State, ghost q2: seq<Pending>)
    requires Going(queue, regs, vars, code, s, q, [t] + more, m0, base, keep)
    modifies queue`bottom, queue`added, queue.ring, vars, regs, regs.stat
    ensures ok ==> Going(queue, regs, vars, code2, s2, q2, more, m0, base, keep)
    ensures ok ==> Placed(s, s2, MadeArg(t, isLast), isLast)
    ensures ok ==> queue.added - old(queue.added) == |q2| - |q| >= 0 && Weight(q2) <= Weight(q) + Size(t)
    ensures ok ==> Heads(code2) == Heads(code) && q2[|q2| - |q|..] == q
    ensures ok ==> Todo(q2) == Todo(q) + OrderArg(t, isLast)
    ensures ok ==> regs.Valid()
    ensures Enough(old(Used(regs)), q, [t] + now) ==> ok && Enough(Used(regs), q2, now)
    decreases t, 1
  {
    hide *;
    ArgCases(t, isLast);
    GoingValid(queue, regs, vars, code, s, q, [t] + more, m0, base, keep);
    q2 := q;
    ghost var used := Used(regs);
    UsedIs(regs);
    if Enough(used, q, [t] + now) { EnoughNow(used, q, t, now); }
    if !Compound(t) { NoneQueued(q, t, isLast); }
    if t.Var? {
      ok, code2, s2 := GenVariable(t.v, isLast, queue, regs, vars, code, s, q, more, m0, base, keep);
    } else if !Compound(t) {
      code2, s2 := GenConst(t, isLast, queue, regs, vars, code, s, q, more, m0, base, keep);
      ok := true;
    } else if isLast && Short(t) {
      ok, code2, s2, q2 := GenShort(t, queue, regs, vars, code, s, q, more, m0, base, keep, now);
    } else {
      ok, code2, s2, q2 := GenStructure(t, isLast, queue, regs, vars, code, s, q, more, m0, base, keep);
      if ok { StructureQueued(used, q, q2, t, now); }
    }
    if ok { UsedIs(regs); }
  }

  /** Generates code for a list in the short form, and for its rest. */
  method GenShort(t: Term, queue: Queue<Pending>, regs: Registers, vars: Variables, code: seq<Instr>, ghost s: State,
                  ghost q: seq<Pending>, ghost more: seq<Term>, ghost m0: Machine, ghost base: Machine,
                  ghost keep: set<int>, ghost now: seq<Term>)
    returns (ok: bool, code2: seq<Instr>, ghost s2: State, ghost q2: seq<Pending>)
    requires Going(queue, regs, vars, code, s, q, [t] + more, m0, base, keep) && Short(t)
    modifies queue`bottom, queue`added, queue.ring, vars, regs, regs.stat
    ensures ok ==> Going(queue, regs, vars, code2, s2, q2, more, m0, base, keep)
    ensures ok ==> Placed(s, s2, MadeArg(t, true), true)
    ensures ok ==> queue.added - old(queue.added) == |q2| - |q| >= 0 && Weight(q2) <= Weight(q) + Size(t)
    ensures ok ==> Heads(code2) == Heads(code) && q2[|q2| - |q|..] == q
    ensures ok ==> Todo(q2) == Todo(q) + OrderArg(t, true)
    ensures ok ==> regs.Valid()
    ensures Enough(old(Used(regs)), q, [t] + now) ==> ok && Enough(Used(regs), q2, now)
    decreases t, 0
  {
    hide *;
    ArgCases(t, true);
    GoingValid(queue, regs, vars, code, s, q, [t] + more, m0, base, keep);
    SizeTail(t);
    q2 := q;
    ghost var used := Used(regs);
    UsedIs(regs);
    if Enough(used, q, [t] + now) {
      EnoughNow(used, q, t, now);
      EnoughTail(used, q, t, now);
    }
    ok, code2, s2 := GenListNumcon(t, queue, regs, vars, code, s, q, more, m0, base, keep);
    if !ok { return; }
    UsedIs(regs);
    ok, code2, s2, q2 := GenInst(t.cdr, true, queue, regs, vars, code2, s2, q, more, m0, base, keep, now);
    if ok { ListPlaced(s, s2, Narrow(t.car.n), MadeArg(t.cdr, true)); }
  }

  /** Consecutive cells hold the terms. */
  ghost predicate AllHold(s: State, at: nat, ts: seq<Term>) {
    at + |ts| <= |s.m.heap| && forall i :: 0 <= i < |ts| ==> Holds(s.m.heap, s.m.heap[at + i], ts[i], s.env, s.holes)
  }

  ghost predicate Later(s: State, s2: State) {
    && s.m.heap <= s2.m.heap && Within(s.env, s2.env) && Within(s.holes, s2.holes) && s2.others == s.others
    && (forall a :: a in s2.holes ==> a in s.holes || a >= |s.m.heap|)
  }

  lemma AllHoldMore(s: State, s2: State, s3: State, at: nat, ts: seq<Term>, t: Term, isLast: bool)
    requires at + |ts| == |s2.m.heap| && AllHold(s2, at, ts) && Placed(s2, s3, t, isLast) && Later(s, s2)
    ensures AllHold(s3, at, ts + [t]) && Later(s, s3) && (!isLast ==> at + |ts| + 1 == |s3.m.heap|)
  {
    forall i | 0 <= i < |ts|
      ensures Holds(s3.m.heap, s3.m.heap[at + i], ts[i], s3.env, s3.holes)
    {
      HoldsGrow(s2.m.heap, s3.m.heap, s2.m.heap[at + i], ts[i], s2.env, s3.env, s2.holes, s3.holes);
    }
  }

  lemma NoneHold(s: State)
    ensures AllHold(s, |s.m.heap|, []) && Later(s, s)
  {
  }

  lemma FirstOfRest(args: seq<Term>, i: nat)
    requires i < |args|
    ensures args[i..] == [args[i]] + args[i + 1..] && (args[i + 1..] == [] <==> i + 1 == |args|)
  {
  }

  lemma NextMade(args: seq<Term>, i: nat)
    requires i < |args|
    ensures MadeArgs(args)[..i + 1] == MadeArgs(args)[..i] + [MadeArg(args[i], i + 1 == |args|)]
  {
    hide *;
    MadeArgsAt(args, i);
  }

  lemma StillBelow(q: seq<Pending>, q1: seq<Pending>, q2: seq<Pending>)
    requires |q| <= |q1| <= |q2| && q1[|q1| - |q|..] == q && q2[|q2| - |q1|..] == q1
    ensures q2[|q2| - |q|..] == q
  {
    assert q2[|q2| - |q|..] == q2[|q2| - |q1|..][|q1| - |q|..];
  }

  /** The first `i` arguments have been dealt with. */
  ghost predicate ArgsDone(args: seq<Term>, i: nat, code: seq<Instr>, s: State, q: seq<Pending>, code2: seq<Instr>,
                           s2: State, q2: seq<Pending>)
  {
    && i <= |args| && AllHold(s2, |s.m.heap|, MadeArgs(args)[..i]) && Later(s, s2)
    && (i < |args| ==> |s2.m.heap| == |s.m.heap| + i)
    && |q| <= |q2| && q2[|q2| - |q|..] == q && Weight(q2) + SizeAll(args[i..]) <= Weight(q) + SizeAll(args)
    && Heads(code2) == Heads(code) && Todo(q2) + OrderArgs(args[i..]) == Todo(q) + OrderArgs(args)
  }

  lemma {:induction false} NoneDone(args: seq<Term>, code: seq<Instr>, s: State, q: seq<Pending>)
    ensures ArgsDone(args, 0, code, s, q, code, s, q)
  {
    hide *;
    assert args[0..] == args && MadeArgs(args)[..0] == [] && q[|q| - |q|..] == q;
    NoneHold(s);
    DoneIs(args, 0, code, s, q, code, s, q);
  }

  lemma {:induction false} DoneIs(args: seq<Term>, i: nat, code: seq<Instr>, s: State, q: seq<Pending>,
                                  code2: seq<Instr>, s2: State, q2: seq<Pending>)
    requires i <= |args| && AllHold(s2, |s.m.heap|, MadeArgs(args)[..i]) && Later(s, s2)
    requires i < |args| ==> |s2.m.heap| == |s.m.heap| + i
    requires |q| <= |q2| && q2[|q2| - |q|..] == q && Weight(q2) + SizeAll(args[i..]) <= Weight(q) + SizeAll(args)
    requires Heads(code2) == Heads(code) && Todo(q2) + OrderArgs(args[i..]) == Todo(q) + OrderArgs(args)
    ensures ArgsDone(args, i, code, s, q, code2, s2, q2)
  {
  }

  lemma {:induction false} OneDone(args: seq<Term>, i: nat, code: seq<Instr>, s: State, q: seq<Pending>,
                                   code1: seq<Instr>, s1: State, q1: seq<Pending>, code2: seq<Instr>, s2: State,
                                   q2: seq<Pending>)
    requires i < |args| && ArgsDone(args, i, code, s, q, code1, s1, q1)
    requires Placed(s1, s2, MadeArg(args[i], i + 1 == |args|), i + 1 == |args|)
    requires |q1| <= |q2| && q2[|q2| - |q1|..] == q1 && Weight(q2) <= Weight(q1) + Size(args[i])
    requires Heads(code2) == Heads(code1) && Todo(q2) == Todo(q1) + OrderArg(args[i], i + 1 == |args|)
    ensures ArgsDone(args, i + 1, code, s, q, code2, s2, q2)
  {
    hide AllHold, MadeArgs, MadeArg, Later, Placed, Heads, Todo, OrderArg, OrderArgs, SizeAll, Size, Weight;
    FirstOfRest(args, i);
    SizeFirst(args[i], args[i + 1..]);
    OrderFirst(args[i], args[i + 1..]);
    StillBelow(q, q1, q2);
    NextMade(args, i);
    AllHoldMore(s, s1, s2, |s.m.heap|, MadeArgs(args)[..i], MadeArg(args[i], i + 1 == |args|), i + 1 == |args|);
  }

  lemma {:induction false} AllDone(args: seq<Term>, code: seq<Instr>, s: State, q: seq<Pending>, code2: seq<Instr>,
                                   s2: State, q2: seq<Pending>)
    requires ArgsDone(args, |args|, code, s, q, code2, s2, q2)
    ensures AllHold(s2, |s.m.heap|, MadeArgs(args)) && Later(s, s2) && |q| <= |q2| && q2[|q2| - |q|..] == q
    ensures Heads(code2) == Heads(code) && Todo(q2) == Todo(q) + OrderArgs(args)
    ensures Weight(q2) <= Weight(q) + SizeAll(args)
  {
    assert MadeArgs(args)[..|args|] == MadeArgs(args) && args[|args|..] == [];
  }

  /** Generates code for all arguments of a structure. */
  method GenArgs(args: seq<Term>, queue: Queue<Pending>, regs: Registers, vars: Variables, code: seq<Instr>,
                 ghost s: State, ghost q: seq<Pending>, ghost later: seq<Term>, ghost m0: Machine, ghost base: Machine,
                 ghost keep: set<int>)
    returns (ok: bool, code2: seq<Instr>, ghost s2: State, ghost q2: seq<Pending>)
    requires Going(queue, regs, vars, code, s, q, args + later, m0, base, keep)
    modifies queue`bottom, queue`added, queue.ring, vars, regs, regs.stat
    ensures ok ==> Going(queue, regs, vars, code2, s2, q2, later, m0, base, keep)
    ensures ok ==> AllHold(s2, |s.m.heap|, MadeArgs(args)) && Later(s, s2)
    ensures ok ==> 0 <= queue.added == |q2| - |q| && q2[queue.added..] == q && Heads(code2) == Heads(code)
    ensures ok ==> Todo(q2) == Todo(q) + OrderArgs(args)
    ensures ok ==> Weight(q2) <= Weight(q) + SizeAll(args)
    ensures ok ==> regs.Valid()
    ensures Enough(old(Used(regs)), q, args) ==> ok && Enough(Used(regs), q2, [])
  {
    hide *;
    GoingValid(queue, regs, vars, code, s, q, args + later, m0, base, keep);
    ghost var enough := Enough(Used(regs), q, args);
    ok, code2, s2, q2 := true, code, s, q;
    queue.added := 0;
    var i := 0;
    assert args[0..] == args;
    NoneDone(args, code, s, q);
    while i < |args|
      invariant 0 <= i <= |args| && 0 <= queue.added == |q2| - |q|
      invariant ok && Going(queue, regs, vars, code2, s2, q2, args[i..] + later, m0, base, keep)
      invariant ArgsDone(args, i, code, s, q, code2, s2, q2)
      invariant regs.Valid() && (enough ==> Enough(Used(regs), q2, args[i..]))
    {
      FirstOfRest(args, i);
      assert args[i..] + later == [args[i]] + (args[i + 1..] + later);
      ghost var code1, s1, q1 := code2, s2, q2;
      ok, code2, s2, q2 := GenInst(args[i], i + 1 == |args|, queue, regs, vars, code2, s2, q2, args[i + 1..] + later,
                                   m0, base, keep, args[i + 1..]);
      if !ok { return; }
      OneDone(args, i, code, s, q, code1, s1, q1, code2, s2, q2);
      i := i + 1;
    }
    AllDone(args, code, s, q, code2, s2, q2);
    assert args[i..] == [] && args[i..] + later == later;
  }

  // ---------------------------------------------------------------- generating the structures

  function TopCell(t: Term, top: nat): Cell
    requires Compound(t)
  {
    if t.List? then CList(top) else CStr(top)
  }

  function TopCells(t: Term): seq<Cell>
    requires Compound(t)
  {
    if t.List? then [] else [Functor(t.f, |t.args|)]
  }

  /** The state when the free cell `a`, the last of the queue, has been bound to the structure to be built next. */
  function Bound(s: State, t: Term, a: nat): State
    requires Compound(t) && a < |s.m.heap| && s.addrs != []
  {
    State(s.m.(heap := s.m.heap[a := TopCell(t, |s.m.heap|)] + TopCells(t)), s.env,
          map x | x in s.holes && x != a :: s.holes[x],
          s.addrs[..|s.addrs| - 1], s.others)
  }

  lemma BoundQueue(s: State, q: seq<Pending>, p: Pending)
    requires QueueRight(s, q + [p])
    ensures var a := s.addrs[|q|]; a < |s.m.heap| && s.m.heap[a] == Ref(a) && QueueRight(Bound(s, p.term, a), q)
  {
    var a := s.addrs[|q|];
    assert PendingRight(s, (q + [p])[|q|], a);
    var s2 := Bound(s, p.term, a);
    forall i | 0 <= i < |q|
      ensures PendingRight(s2, q[i], s2.addrs[i])
    {
      assert PendingRight(s, (q + [p])[i], s.addrs[i]);
    }
    assert s.addrs == s2.addrs + [a];
  }

  lemma BoundEnv(s: State, q: seq<Pending>, p: Pending)
    requires EnvRight(s) && QueueRight(s, q + [p])
    ensures var a := s.addrs[|q|]; a < |s.m.heap| && EnvRight(Bound(s, p.term, a))
  {
    assert PendingRight(s, (q + [p])[|q|], s.addrs[|q|]);
  }

  lemma {:induction false} OccAllConcat(a: seq<Term>, b: seq<Term>, v: int)
    ensures OccAll(a + b, v) == OccAll(a, v) + OccAll(b, v)
  {
    if a == [] {
      assert a + b == b;
    } else {
      assert (a + b)[0] == a[0] && (a + b)[1..] == a[1..] + b;
      OccAllConcat(a[1..], b, v);
    }
  }

  lemma RestArgs(q: seq<Pending>, p: Pending, later: seq<Term>, v: int)
    requires Compound(p.term)
    ensures Rest(q + [p], later, v) == Rest(q, Args(p.term) + later, v)
  {
    OccPendingConcat(q, [p], v);
    OccAllConcat(Args(p.term), later, v);
    assert [p][1..] == [];
    if p.term.List? {
      assert [p.term.car, p.term.cdr][1..] == [p.term.cdr];
      assert [p.term.cdr][1..] == [];
      assert OccAll([p.term.cdr], v) == Occ(p.term.cdr, v);
    }
    assert OccAll(Args(p.term), v) == Occ(p.term, v);
    assert OccPending([p], v) == Occ(p.term, v);
  }

  lemma BoundVars(s: State, q: seq<Pending>, p: Pending, later: seq<Term>, a: nat, reg: map<int, int>,
                  left: map<int, int>)
    requires Compound(p.term) && a < |s.m.heap| && s.addrs != [] && VarsRight(s, q + [p], later, reg, left)
    ensures VarsRight(Bound(s, p.term, a), q, Args(p.term) + later, reg, left)
  {
    forall v
      ensures VarRight(Bound(s, p.term, a), v, Rest(q, Args(p.term) + later, v), reg, left)
    {
      RestArgs(q, p, later, v);
      assert VarRight(s, v, Rest(q + [p], later, v), reg, left);
    }
  }

  lemma OwnRegister(s: State, q: seq<Pending>, p: Pending, later: seq<Term>, reg: map<int, int>, left: map<int, int>,
                    taken: set<int>, base: Machine, keep: set<int>)
    requires Right(s, q + [p], later, reg, left, taken, base, keep)
    ensures Compound(p.term) && p.reg in taken && p.reg !in keep && Refers(s.m, p.reg, s.addrs[|q|])
    ensures s.addrs[|q|] < |s.m.heap| && s.m.heap[s.addrs[|q|]] == Ref(s.addrs[|q|])
    ensures s.addrs[|q|] in s.holes && s.holes[s.addrs[|q|]] == Made(p.term)
    ensures forall i :: 0 <= i < |q| ==> q[i].reg != p.reg
    ensures forall v :: Rest(q + [p], later, v) > 0 && v in reg ==> reg[v] != p.reg
  {
    var all := q + [p];
    assert PendingRight(s, all[|q|], s.addrs[|q|]);
    forall i | 0 <= i < |q|
      ensures q[i].reg != p.reg
    {
      assert PendingRight(s, all[i], s.addrs[i]);
    }
    forall v | Rest(q + [p], later, v) > 0 && v in reg
      ensures reg[v] != p.reg
    {
      assert VarRight(s, v, Rest(q + [p], later, v), reg, left);
    }
  }

  lemma BoundRegs(s: State, q: seq<Pending>, p: Pending, later: seq<Term>, reg: map<int, int>, left: map<int, int>,
                  taken: set<int>, base: Machine, keep: set<int>)
    requires Right(s, q + [p], later, reg, left, taken, base, keep)
    requires Compound(p.term) && s.addrs[|q|] < |s.m.heap|
    ensures RegsRight(Bound(s, p.term, s.addrs[|q|]), q, Args(p.term) + later, reg, taken - {p.reg}, base, keep)
  {
    hide Rest, QueueRight, EnvRight, VarsRight;
    OwnRegister(s, q, p, later, reg, left, taken, base, keep);
    assert forall i :: 0 <= i < |q| ==> (q + [p])[i] == q[i];
    forall v
      ensures Rest(q + [p], later, v) == Rest(q, Args(p.term) + later, v)
    {
      RestArgs(q, p, later, v);
    }
  }

  /** Taking the next structure from the queue: its register is no longer needed. */
  lemma BoundRight(s: State, q: seq<Pending>, p: Pending, later: seq<Term>, reg: map<int, int>, left: map<int, int>,
                   taken: set<int>, base: Machine, keep: set<int>)
    requires Right(s, q + [p], later, reg, left, taken, base, keep)
    ensures Compound(p.term) && s.addrs[|q|] < |s.m.heap|
    ensures Right(Bound(s, p.term, s.addrs[|q|]), q, Args(p.term) + later, reg, left, taken - {p.reg}, base, keep)
  {
    OwnRegister(s, q, p, later, reg, left, taken, base, keep);
    hide QueueRight, EnvRight, VarsRight, RegsRight;
    BoundQueue(s, q, p);
    BoundEnv(s, q, p);
    BoundVars(s, q, p, later, s.addrs[|q|], reg, left);
    BoundRegs(s, q, p, later, reg, left, taken, base, keep);
  }

  function GetInstr(t: Term, r: int): Instr
    requires Compound(t)
  {
    if t.List? then GetList(r) else GetStr(r, t.f, |t.args|)
  }

  function PutInstr(t: Term, r: int): Instr
    requires Compound(t)
  {
    if t.List? then PutList(r) else PutStr(r, t.f, |t.args|)
  }

  lemma BoundCode(code: seq<Instr>, m0: Machine, s: State, t: Term, r: int, a: nat)
    requires Exec(code, m0) == Some(s.m) && Compound(t) && Refers(s.m, r, a) && a < |s.m.heap| &&
             s.m.heap[a] == Ref(a) && s.addrs != []
    ensures Exec(code + [GetInstr(t, r)], m0) == Some(Bound(s, t, a).m)
  {
    ExecOne(code, GetInstr(t, r), m0);
    var h := s.m.heap[a := TopCell(t, |s.m.heap|)];
    assert h + [] == h;
  }

  // ---------------------------------------------------------------- the whole term

  /** Register `root` holds the term, except for the structures still queued. */
  ghost predicate RootRight(s: State, root: int, t: Term, base: Machine, env0: Env) {
    && Within(env0, s.env) && root in s.m.regs && Holds(s.m.heap, s.m.regs[root], t, s.env, s.holes)
    && base.heap <= s.m.heap && (forall a :: a in s.holes ==> a >= |base.heap|)
  }

  lemma StructureHolds(s: State, s2: State, at: nat, t: Term)
    requires Compound(t) && AllHold(s2, at + |TopCells(t)|, Args(t)) && at + |TopCells(t)| <= |s2.m.heap|
    requires t.Str? ==> s2.m.heap[at] == Functor(t.f, |t.args|)
    ensures Holds(s2.m.heap, TopCell(t, at), t, s2.env, s2.holes)
  {
    var c, h := TopCell(t, at), s2.m.heap;
    assert Deref(h, c) == c;
    if t.List? {
      assert Args(t)[0] == t.car && Args(t)[1] == t.cdr;
      assert Holds(h, h[at + 0], t.car, s2.env, s2.holes) && Holds(h, h[at + 1], t.cdr, s2.env, s2.holes);
    } else {
      forall i | 0 <= i < |t.args|
        ensures Holds(h, h[at + 1 + i], t.args[i], s2.env, s2.holes)
      {
        assert Holds(h, h[at + 1 + i], Args(t)[i], s2.env, s2.holes);
      }
    }
  }

  lemma BoundRefill(s: State, s2: State, p: Term, a: nat)
    requires Compound(p) && s.addrs != [] && a < |s.m.heap| && s.m.heap[a] == Ref(a) && a in s.holes
    requires s.holes[a] == Made(p) && EnvRight(s)
    requires var s1 := Bound(s, p, a); Later(s1, s2) && AllHold(s2, |s1.m.heap|, MadeArgs(Args(p)))
    ensures Refill(s.m.heap, s2.m.heap, a, s.env, s2.env, s.holes, s2.holes)
  {
    hide Holds, AllHold;
    var s1, h2 := Bound(s, p, a), s2.m.heap;
    assert |s1.m.heap| == |s.m.heap| + |TopCells(p)|;
    assert forall i :: 0 <= i < |s1.m.heap| ==> h2[i] == s1.m.heap[i];
    MadeFacts(p);
    StructureHolds(s1, s2, |s.m.heap|, Made(p));
  }

  /** Building a queued structure completes the root by as much. */
  lemma RootFilled(s: State, s2: State, p: Term, a: nat, root: int, t: Term, base: Machine, env0: Env)
    requires Compound(p) && s.addrs != [] && a < |s.m.heap| && s.m.heap[a] == Ref(a) && a in s.holes
    requires s.holes[a] == Made(p) && EnvRight(s) && RootRight(s, root, t, base, env0)
    requires var s1 := Bound(s, p, a); Later(s1, s2) && AllHold(s2, |s1.m.heap|, MadeArgs(Args(p)))
    requires root in s2.m.regs && s2.m.regs[root] == s.m.regs[root]
    ensures RootRight(s2, root, t, base, env0)
  {
    hide Holds, AllHold, EnvRight, Refill;
    var h2 := s2.m.heap;
    BoundRefill(s, s2, p, a);
    HoldsFill(s.m.heap, h2, a, s.m.regs[root], t, s.env, s2.env, s.holes, s2.holes);
    assert a >= |base.heap|;
  }

  lemma RotatedCounts(q: seq<Pending>, k: nat, later: seq<Term>)
    requires k <= |q|
    ensures Weight(Rotated(q, k)) == Weight(q) && forall v :: Rest(Rotated(q, k), later, v) == Rest(q, later, v)
  {
    WeightConcat(q[k..], q[..k]);
    WeightConcat(q[..k], q[k..]);
    assert q == q[..k] + q[k..];
    forall v
      ensures Rest(Rotated(q, k), later, v) == Rest(q, later, v)
    {
      OccPendingConcat(q[k..], q[..k], v);
      OccPendingConcat(q[..k], q[k..], v);
    }
  }

  lemma RotatedRegs(s: State, q: seq<Pending>, k: nat, later: seq<Term>, reg: map<int, int>, taken: set<int>,
                    base: Machine, keep: set<int>)
    requires k <= |q| && RegsRight(s, q, later, reg, taken, base, keep)
    ensures RegsRight(s.(addrs := Rotated(s.addrs, if k <= |s.addrs| then k else 0)), Rotated(q, k), later, reg, taken,
                      base, keep)
  {
    hide Rest;
    RotatedCounts(q, k, later);
    var r := Rotated(q, k);
    forall i | 0 <= i < |r|
      ensures r[i].reg in taken && r[i].reg !in keep
    {
      assert r[i] == q[if i < |q| - k then i + k else i - (|q| - k)];
    }
  }

  lemma RotatedVars(s: State, q: seq<Pending>, k: nat, later: seq<Term>, addrs: seq<nat>, reg: map<int, int>,
                    left: map<int, int>)
    requires k <= |q| && VarsRight(s, q, later, reg, left)
    ensures VarsRight(s.(addrs := addrs), Rotated(q, k), later, reg, left)
  {
    hide Rest, Rotated;
    RotatedCounts(q, k, later);
    forall v
      ensures VarRight(s.(addrs := addrs), v, Rest(Rotated(q, k), later, v), reg, left)
    {
      assert VarRight(s, v, Rest(q, later, v), reg, left);
    }
  }

  function Back(i: nat, k: nat, n: nat): nat
    requires i < n && k <= n
  {
    if i < n - k then i + k else i - (n - k)
  }

  lemma RotatedQueue(s: State, q: seq<Pending>, k: nat)
    requires k <= |q| && QueueRight(s, q)
    ensures QueueRight(s.(addrs := Rotated(s.addrs, k)), Rotated(q, k))
  {
    hide Rotated, Back;
    var s2, r, n := s.(addrs := Rotated(s.addrs, k)), Rotated(q, k), |q|;
    RotatedBack(q, k);
    RotatedBack(s.addrs, k);
    forall i | 0 <= i < n
      ensures PendingRight(s2, r[i], s2.addrs[i])
    {
      assert PendingRight(s, q[Back(i, k, n)], s.addrs[Back(i, k, n)]);
    }
  }

  lemma RotatedBack<T>(s: seq<T>, k: nat)
    requires k <= |s|
    ensures |Rotated(s, k)| == |s| && forall x :: x in Rotated(s, k) <==> x in s
    ensures forall i :: 0 <= i < |s| ==> Back(i, k, |s|) < |s| && Rotated(s, k)[i] == s[Back(i, k, |s|)]
    ensures (forall i, j :: 0 <= i < j < |s| ==> s[i] != s[j]) ==>
              forall i, j :: 0 <= i < j < |s| ==> Rotated(s, k)[i] != Rotated(s, k)[j]
  {
    assert s == s[..k] + s[k..];
  }

  lemma RotatedRight(s: State, q: seq<Pending>, k: nat, later: seq<Term>, reg: map<int, int>, left: map<int, int>,
                     taken: set<int>, base: Machine, keep: set<int>)
    requires k <= |q| && Right(s, q, later, reg, left, taken, base, keep)
    ensures |s.addrs| == |q|
    ensures Right(s.(addrs := Rotated(s.addrs, k)), Rotated(q, k), later, reg, left, taken, base, keep)
    ensures Weight(Rotated(q, k)) == Weight(q)
  {
    RotatedCounts(q, k, later);
    assert |s.addrs| == |q|;
    hide QueueRight, VarsRight, RegsRight, Rotated, Weight, Rest;
    RotatedQueue(s, q, k);
    RotatedVars(s, q, k, later, Rotated(s.addrs, k), reg, left);
    RotatedRegs(s, q, k, later, reg, taken, base, keep);
  }

  lemma SizeArgs(t: Term)
    requires Compound(t)
    ensures SizeAll(Args(t)) == Size(t) - 1
  {
    if t.List? {
      assert [t.car, t.cdr][1..] == [t.cdr] && [t.cdr][1..] == [];
      assert SizeAll([t.cdr]) == Size(t.cdr);
    }
  }

  /** The structure `p` is the one to be built next, in the free cell `a`; `q` is the queue without it. */
  ghost predicate Ready(s: State, q0: seq<Pending>, q: seq<Pending>, p: Term, a: nat) {
    && Compound(p) && s.addrs != [] && a < |s.m.heap| && s.m.heap[a] == Ref(a) && a in s.holes &&
       s.holes[a] == Made(p) && EnvRight(s)
    && Weight(q) + SizeAll(Args(p)) < Weight(q0)
  }

  /** What is known when the last entry `p` of the queue is dealt with. */
  lemma QueuedReady(s: State, q: seq<Pending>, p: Pending, later: seq<Term>, code: seq<Instr>, m0: Machine,
                    reg: map<int, int>, left: map<int, int>, taken: set<int>, base: Machine, keep: set<int>)
    requires Right(s, q + [p], later, reg, left, taken, base, keep)
    requires Exec(code, m0) == Some(s.m)
    ensures Ready(s, q + [p], q, p.term, s.addrs[|q|]) && Compound(p.term) && s.addrs[|q|] < |s.m.heap|
    ensures Right(Bound(s, p.term, s.addrs[|q|]), q, Args(p.term) + later, reg, left, taken - {p.reg}, base, keep)
    ensures Bound(s, p.term, s.addrs[|q|]).others == s.others
    ensures Exec(code + [GetInstr(p.term, p.reg)], m0) == Some(Bound(s, p.term, s.addrs[|q|]).m)
  {
    OwnRegister(s, q, p, later, reg, left, taken, base, keep);
    WeightConcat(q, [p]);
    WeightAdd(p, []);
    assert [p] + [] == [p];
    SizeArgs(p.term);
    BoundCode(code, m0, s, p.term, p.reg, s.addrs[|q|]);
    hide QueueRight, VarsRight, RegsRight;
    BoundRight(s, q, p, later, reg, left, taken, base, keep);
  }

  lemma OwnTaken(s: State, q: seq<Pending>, p: Pending, later: seq<Term>, reg: map<int, int>, left: map<int, int>,
                 stat: seq<int>, taken: set<int>, base: Machine, keep: set<int>)
    requires Right(s, q + [p], later, reg, left, taken, base, keep)
    requires Accounted(s.others, q + [p], later, reg, stat, taken)
    ensures p.reg in taken && Compound(p.term) && 0 <= p.reg < |stat| && stat[p.reg] == TVar
  {
    OwnRegister(s, q, p, later, reg, left, taken, base, keep);
    assert (q + [p])[|q|] == p;
  }

  /** Takes the next structure from the queue and generates the instruction that binds its cell. */
  method GenGet(queue: Queue<Pending>, regs: Registers, vars: Variables, code: seq<Instr>, ghost s: State,
                ghost q: seq<Pending>, ghost later: seq<Term>, ghost m0: Machine, ghost base: Machine,
                ghost keep: set<int>)
    returns (p: Term, code2: seq<Instr>, ghost a: nat)
    requires Going(queue, regs, vars, code, s, q, later, m0, base, keep) && q != []
    modifies queue`top, regs, regs.stat
    ensures Ready(s, q, q[..|q| - 1], p, a)
    ensures Going(queue, regs, vars, code2, Bound(s, p, a), q[..|q| - 1], Args(p) + later, m0, base, keep)
    ensures Heads(code2) == Heads(code) + [HeadOf(p)]
    ensures Todo(q) == [HeadOf(p)] + OrderArgs(Args(p)) + Todo(q[..|q| - 1])
    ensures regs.Valid() && (Enough(old(Used(regs)), q, []) ==> Enough(Used(regs), q[..|q| - 1], Args(p)))
  {
    hide Heads, Todo, OrderArgs, Right, Exec, Ready, Bound, Enough, Between, FreeList, InUse, Accounted;
    ghost var q1, taken, stat := q[..|q| - 1], regs.Taken(), regs.stat[..];
    GoingAddrs(queue, regs, vars, code, s, q, later, m0, base, keep);
    a := s.addrs[|q| - 1];
    var e := queue.Pop();
    assert q == q1 + [e] && queue.Contents() == q1;
    OwnTaken(s, q1, e, later, vars.reg, vars.left, stat, taken, base, keep);
    p := e.term;
    HeadsOne(code, GetInstr(p, e.reg));
    TodoLast(q1, e);
    code2 := code + [GetInstr(p, e.reg)];
    assert queue.Contents() == q1;
    regs.Release(e.reg);
    assert queue.Contents() == q1;
    QueuedReady(s, q1, e, later, code, m0, vars.reg, vars.left, taken, base, keep);
    NeededTaken(Bound(s, p, a), q1, Args(p) + later, vars.reg, vars.left, regs.Taken(), base, keep);
    TakenAccount(s.others, q1, e, later, vars.reg, stat, regs.stat[..], taken, regs.Taken());
    NoMore(regs.Taken(), taken);
    if Enough(|taken|, q, []) { EnoughTaken(|taken|, |regs.Taken()|, q1, e); }
  }

  lemma GoingAddrs(queue: Queue<Pending>, regs: Registers, vars: Variables, code: seq<Instr>, s: State, q: seq<Pending>,
                   later: seq<Term>, m0: Machine, base: Machine, keep: set<int>)
    requires Going(queue, regs, vars, code, s, q, later, m0, base, keep)
    ensures |s.addrs| == |q|
  {
  }

  /** Puts the structures queued last in front of the others. */
  method RotateQueue(queue: Queue<Pending>, regs: Registers, vars: Variables, code: seq<Instr>, ghost s: State,
                     ghost q: seq<Pending>, ghost later: seq<Term>, ghost m0: Machine, ghost base: Machine,
                     ghost keep: set<int>)
    returns (ghost s2: State, ghost q2: seq<Pending>)
    requires Going(queue, regs, vars, code, s, q, later, m0, base, keep) && 0 <= queue.added <= |q|
    modifies queue`top, queue`bottom, queue`added, queue.ring
    ensures Going(queue, regs, vars, code, s2, q2, later, m0, base, keep) && Weight(q2) == Weight(q) && |q2| == |q|
    ensures q2 == Rotated(q, old(queue.added))
    ensures s2.m == s.m && s2.env == s.env && s2.holes == s.holes && s2.others == s.others
  {
    hide Right, Rotated, Weight, Exec, Queue.Contents, Registers.Valid, Registers.Taken, FreeList, InUse, Accounted;
    RotatedRight(s, q, queue.added, later, vars.reg, vars.left, regs.Taken(), base, keep);
    RotatedAccount(s.others, q, queue.added, later, vars.reg, regs.stat[..], regs.Taken());
    s2 := s.(addrs := Rotated(s.addrs, queue.added));
    q2 := Rotated(q, queue.added);
    queue.Rotate();
  }

  lemma RootKeptGoing(queue: Queue<Pending>, regs: Registers, vars: Variables, code: seq<Instr>, s: State,
                      q: seq<Pending>, later: seq<Term>, m0: Machine, base: Machine, keep: set<int>, root: int)
    requires Going(queue, regs, vars, code, s, q, later, m0, base, keep) && root in keep && root in base.regs
    ensures root in s.m.regs && s.m.regs[root] == base.regs[root]
  {
  }

  /** Generates code for the next structure of the queue. */
  method GenQueued(queue: Queue<Pending>, regs: Registers, vars: Variables, code: seq<Instr>, ghost s: State,
                   ghost q: seq<Pending>, ghost later: seq<Term>, ghost m0: Machine, ghost base: Machine,
                   ghost keep: set<int>, ghost root: int, ghost t: Term, ghost env0: Env)
    returns (ok: bool, code2: seq<Instr>, ghost s2: State, ghost q2: seq<Pending>)
    requires Going(queue, regs, vars, code, s, q, later, m0, base, keep) && q != []
    requires RootRight(s, root, t, base, env0) && root in keep && root in base.regs
    modifies queue`top, queue`bottom, queue`added, queue.ring, vars, regs, regs.stat
    ensures ok ==>
              Going(queue, regs, vars, code2, s2, q2, later, m0, base, keep) && RootRight(s2, root, t, base, env0) &&
              Weight(q2) < Weight(q) && s2.others == s.others
    ensures ok ==> regs.Valid() && Heads(code2) + Todo(q2) == Heads(code) + Todo(q)
    ensures Enough(old(Used(regs)), q, []) ==> ok && Enough(Used(regs), q2, [])
  {
    hide Heads, Todo, OrderArgs, Going, SizeAll, Holds, AllHold, Later, Bound, EnvRight, RootRight, Weight,
        Enough, Rotated;
    hide Registers.Valid, Registers.Taken, FreeList, InUse;
    GoingValid(queue, regs, vars, code, s, q, later, m0, base, keep);
    RootKeptGoing(queue, regs, vars, code, s, q, later, m0, base, keep, root);
    var p;
    ghost var a;
    p, code2, a := GenGet(queue, regs, vars, code, s, q, later, m0, base, keep);
    ghost var s1 := Bound(s, p, a);
    var args := if p.List? then [p.car, p.cdr] else p.args;
    ok, code2, s2, q2 := GenArgs(args, queue, regs, vars, code2, s1, q[..|q| - 1], later, m0, base, keep);
    if !ok { return; }
    RootKeptGoing(queue, regs, vars, code2, s2, q2, later, m0, base, keep, root);
    RootFilled(s, s2, p, a, root, t, base, env0);
    SameOthers(s, p, a, s2);
    ghost var s3, q3 := s2, q2;
    RotatedTodo(q[..|q| - 1], q3, queue.added, OrderArgs(args));
    s2, q2 := RotateQueue(queue, regs, vars, code2, s3, q3, later, m0, base, keep);
    SameRoot(s3, s2, root, t, base, env0);
    EnoughStill(q3, q2);
  }

  lemma SameOthers(s: State, p: Term, a: nat, s2: State)
    requires Compound(p) && a < |s.m.heap| && s.addrs != [] && Later(Bound(s, p, a), s2)
    ensures s2.others == s.others
  {
  }

  lemma SameRoot(s: State, s2: State, root: int, t: Term, base: Machine, env0: Env)
    requires RootRight(s, root, t, base, env0) && s2.m == s.m && s2.env == s.env && s2.holes == s.holes
    ensures RootRight(s2, root, t, base, env0)
  {
  }

  // ---------------------------------------------------------------- the first structure

  /** Register `root` has been made to refer to the structure whose arguments follow. */
  function Started(m: Machine, t: Term, root: int): Machine
    requires Compound(t)
  {
    Machine(m.heap + TopCells(t), m.regs[root := TopCell(t, |m.heap|)])
  }

  function Begun(m: Machine, env: Env, t: Term, root: int, others: set<int>): State
    requires Compound(t)
  {
    Idle(Started(m, t, root), env, others)
  }

  /** The state between two terms. */
  function Idle(m: Machine, env: Env, others: set<int>): State {
    State(m, env, map[], [], others)
  }

  /** The terms `ts` can be built one after the other: their variables are counted, and those that have occurred have
      registers, which are not in `keep`. */
  ghost predicate Startable(m: Machine, env: Env, ts: seq<Term>, reg: map<int, int>, left: map<int, int>,
                            taken: set<int>, keep: set<int>) {
    Right(Idle(m, env, {}), [], ts, reg, left, taken, m, keep)
  }

  /** The register `root` may be given the next term: it is in use for good, and no variable that is still to occur
      needs it. */
  ghost predicate IsRoot(root: int, ts: seq<Term>, reg: map<int, int>, stat: seq<int>, taken: set<int>,
                         keep: set<int>) {
    && root in taken && root !in keep && 0 <= root < |stat| && stat[root] != TVar
    && forall v :: Rest([], ts, v) > 0 && v in reg ==> reg[v] != root
  }

  /** The registers in use that will not be given back while `ts` are built. */
  ghost function Others(ts: seq<Term>, reg: map<int, int>, stat: seq<int>, taken: set<int>): set<int> {
    set x | x in taken && !(Serves(x, [], ts, reg) && 0 <= x < |stat| && stat[x] == RVar)
  }

  /** Terms can be built when none of their variables has a register yet and their occurrences are counted. */
  lemma FreshStartable(m: Machine, ts: seq<Term>, left: map<int, int>, taken: set<int>, keep: set<int>)
    requires keep <= taken && forall v :: OccAll(ts, v) > 0 ==> v in left && left[v] == OccAll(ts, v)
    ensures Startable(m, map[], ts, map[], left, taken, keep)
  {
    var s := Idle(m, map[], {});
    forall v
      ensures VarRight(s, v, Rest([], ts, v), map[], left)
    {
    }
  }

  lemma BegunRest(t: Term, later: seq<Term>, v: int)
    requires Compound(t)
    ensures Rest([], [t] + later, v) == Rest([], Args(t) + later, v)
  {
    RestArgs([], Pending(0, t), later, v);
    RestMoved([], t, 0, later, v);
    assert [] + [Pending(0, t)] == [Pending(0, t)] + [];
  }

  lemma BegunRight(m: Machine, env: Env, t: Term, later: seq<Term>, root: int, reg: map<int, int>,
                   left: map<int, int>, stat: seq<int>, taken: set<int>, keep: set<int>, others: set<int>)
    requires Compound(t) && Startable(m, env, [t] + later, reg, left, taken, keep) &&
             IsRoot(root, [t] + later, reg, stat, taken, keep)
    ensures Right(Begun(m, env, t, root, others), [], Args(t) + later, reg, left, taken, Started(m, t, root),
                  keep + {root})
  {
    hide Rest, Args;
    var s, s2 := Idle(m, env, {}), Begun(m, env, t, root, others);
    forall v
      ensures Rest([], Args(t) + later, v) == Rest([], [t] + later, v)
    {
      BegunRest(t, later, v);
    }
    forall v
      ensures VarRight(s2, v, Rest([], Args(t) + later, v), reg, left)
    {
      assert VarRight(s, v, Rest([], [t] + later, v), reg, left);
    }
  }

  lemma BegunAccount(m: Machine, env: Env, t: Term, later: seq<Term>, reg: map<int, int>, left: map<int, int>,
                     stat: seq<int>, taken: set<int>, keep: set<int>)
    requires Compound(t) && Startable(m, env, [t] + later, reg, left, taken, keep)
    ensures Accounted(Others([t] + later, reg, stat, taken), [], Args(t) + later, reg, stat, taken)
  {
    NeededTaken(Idle(m, env, {}), [], [t] + later, reg, left, taken, m, keep);
    hide Rest, Args;
    forall v
      ensures Rest([], Args(t) + later, v) == Rest([], [t] + later, v)
    {
      BegunRest(t, later, v);
    }
    var others := Others([t] + later, reg, stat, taken);
    forall v | Rest([], Args(t) + later, v) > 0 && v in reg && reg[v] !in others
      ensures 0 <= reg[v] < |stat| && stat[reg[v]] == RVar
    {
      assert reg[v] in taken;
    }
    forall x | x in taken && x !in others
      ensures Serves(x, [], Args(t) + later, reg)
    {
      SameServes(x, [], [t] + later, [], Args(t) + later, reg);
    }
  }

  lemma BegunCode(code: seq<Instr>, m0: Machine, m: Machine, t: Term, root: int)
    requires Compound(t) && Exec(code, m0) == Some(m)
    ensures Exec(code + [PutInstr(t, root)], m0) == Some(Started(m, t, root))
  {
    ExecOne(code, PutInstr(t, root), m0);
    assert m.heap + [] == m.heap;
  }

  lemma RootBegun(m: Machine, env: Env, s2: State, t: Term, root: int, others: set<int>)
    requires Compound(t)
    requires var s1 := Begun(m, env, t, root, others);
             Later(s1, s2) && AllHold(s2, |s1.m.heap|, MadeArgs(Args(t))) && root in s2.m.regs &&
             s2.m.regs[root] == s1.m.regs[root]
    ensures RootRight(s2, root, Made(t), Started(m, t, root), env)
  {
    hide Holds, AllHold;
    var s1 := Begun(m, env, t, root, others);
    assert t.Str? ==> s1.m.heap[|m.heap|] == Functor(t.f, |t.args|);
    MadeFacts(t);
    StructureHolds(s1, s2, |m.heap|, Made(t));
  }

  /** The term has been built: its structures, constants and variables are in place, equal variables are the same
      free cell and different ones different cells, and nothing else has changed. */
  ghost predicate Built(m: Machine, m2: Machine, root: int, t: Term, env: Env, env2: Env, keep: set<int>) {
    && root in m2.regs && Holds(m2.heap, m2.regs[root], t, env2, map[])
    && (forall v :: v in env2 ==> env2[v] < |m2.heap| && m2.heap[env2[v]] == Ref(env2[v]))
    && (forall v, w :: v in env2 && w in env2 && v != w ==> env2[v] != env2[w])
    && Within(env, env2) && m.heap <= m2.heap
    && forall x :: x in keep && x in m.regs ==> x in m2.regs && m2.regs[x] == m.regs[x]
  }

  lemma AllBuilt(s: State, m: Machine, env: Env, root: int, t: Term, later: seq<Term>, reg: map<int, int>,
                 left: map<int, int>, taken: set<int>, keep: set<int>)
    requires Compound(t) && root !in keep
    requires Right(s, [], later, reg, left, taken, Started(m, t, root), keep + {root})
    requires RootRight(s, root, Made(t), Started(m, t, root), env)
    ensures Built(m, s.m, root, Made(t), env, s.env, keep)
    ensures Startable(s.m, s.env, later, reg, left, taken, keep + {root})
  {
    assert s.holes == map[];
    assert m.heap <= Started(m, t, root).heap;
    var s2 := Idle(s.m, s.env, {});
    forall v
      ensures VarRight(s2, v, Rest([], later, v), reg, left)
    {
      assert VarRight(s, v, Rest([], later, v), reg, left);
    }
  }

  /** What has been built is the term itself exactly if its integers fit. */
  lemma RightIffFits(m: Machine, m2: Machine, root: int, t: Term, env: Env, env2: Env, keep: set<int>)
    requires Compound(t) && Built(m, m2, root, Made(t), env, env2, keep)
    ensures Built(m, m2, root, t, env, env2, keep) <==> Fits(t)
  {
    MadeIff(t);
    if Built(m, m2, root, t, env, env2, keep) { HoldsOne(m2.heap, m2.regs[root], t, Made(t), env2); }
  }

  /** Generates code that builds the term of the single queue entry in its register, its structures in order.  What is
      built is the term exactly if its integers fit.  This succeeds if there are registers and room in the queue for
      all nodes of the term.  The terms `later` can be built afterwards, and no register stays in use but for them,
      unless it was in use for something else. */
  method GenTerms(queue: Queue<Pending>, regs: Registers, vars: Variables, code: seq<Instr>, ghost root: int,
                  ghost t: Term, ghost later: seq<Term>, ghost m0: Machine, ghost m: Machine, ghost env: Env,
                  ghost keep: set<int>)
    returns (ok: bool, code2: seq<Instr>, ghost m2: Machine, ghost env2: Env)
    requires queue.Valid() && queue.Contents() == [Pending(root, t)] && regs.Valid() && Exec(code, m0) == Some(m)
    requires Compound(t) && Startable(m, env, [t] + later, vars.reg, vars.left, regs.Taken(), keep)
    requires IsRoot(root, [t] + later, vars.reg, regs.stat[..], regs.Taken(), keep)
    modifies queue`top, queue`bottom, queue`added, queue.ring, vars, regs, regs.stat
    ensures ok ==> Exec(code2, m0) == Some(m2) && Built(m, m2, root, Made(t), env, env2, keep)
    ensures ok ==> (Built(m, m2, root, t, env, env2, keep) <==> Fits(t))
    ensures ok ==> Heads(code2) == Heads(code) + Order(t)
    ensures ok ==> queue.Valid() && queue.Contents() == [] && regs.Valid()
    ensures ok ==> Startable(m2, env2, later, vars.reg, vars.left, regs.Taken(), keep + {root})
    ensures ok ==> regs.Taken() <= Others([t] + later, old(vars.reg), old(regs.stat[..]), old(regs.Taken())) +
                                   set v | v in vars.reg && Rest([], later, v) > 0 :: vars.reg[v]
    ensures |old(regs.Taken())| + Size(t) <= MaxRegs && Size(t) <= QueueSize ==> ok
  {
    hide Heads, Todo, OrderArgs, Order, Going, Built, Begun, AllHold, Later, RootRight, Startable, Enough,
        Weight, Rotated, Size, Started, Others,
        Made, Fits;
    hide Registers.Valid, Registers.Taken, FreeList, InUse, Queue.Contents, Right, Exec, Holds;
    ghost var others := Others([t] + later, vars.reg, regs.stat[..], regs.Taken());
    var p;
    p, code2 := GenPut(queue, regs, vars, code, root, t, later, m0, m, env, keep);
    ghost var s, base := Begun(m, env, t, root, others), Started(m, t, root);
    ghost var q: seq<Pending> := [];
    m2, env2 := m, env;
    EnoughStarts(|regs.Taken()|, t);
    var args := if p.List? then [p.car, p.cdr] else p.args;
    ok, code2, s, q := GenArgs(args, queue, regs, vars, code2, s, q, later, m0, base, keep + {root});
    if !ok { return; }
    BegunBase(m, env, t, root, others, s);
    RootKeptGoing(queue, regs, vars, code2, s, q, later, m0, base, keep + {root}, root);
    RootBegun(m, env, s, t, root, others);
    ghost var s3, q3 := s, q;
    StartTodo(t, q3, queue.added);
    s, q := RotateQueue(queue, regs, vars, code2, s3, q3, later, m0, base, keep + {root});
    SameRoot(s3, s, root, Made(t), base, env);
    EnoughStill(q3, q);
    ok, code2, s := GenRest(queue, regs, vars, code2, s, q, later, m0, base, keep + {root}, root, Made(t), env);
    if ok {
      m2, env2 := s.m, s.env;
      AllBuiltGoing(queue, regs, vars, code2, s, later, m0, m, env, root, t, keep);
      RightIffFits(m, m2, root, t, env, env2, keep);
    }
  }

  /** Takes the entry from the queue and generates the instruction for its top. */
  method GenPut(queue: Queue<Pending>, regs: Registers, vars: Variables, code: seq<Instr>, ghost root: int,
                ghost t: Term, ghost later: seq<Term>, ghost m0: Machine, ghost m: Machine, ghost env: Env,
                ghost keep: set<int>)
    returns (p: Term, code2: seq<Instr>)
    requires queue.Valid() && queue.Contents() == [Pending(root, t)] && regs.Valid() && Exec(code, m0) == Some(m)
    requires Compound(t) && Startable(m, env, [t] + later, vars.reg, vars.left, regs.Taken(), keep)
    requires IsRoot(root, [t] + later, vars.reg, regs.stat[..], regs.Taken(), keep)
    modifies queue`top, regs, regs.stat
    ensures p == t && root !in keep && regs.Valid() && regs.Taken() == old(regs.Taken())
    ensures Heads(code2) == Heads(code) + [HeadOf(t)]
    ensures var others := Others([t] + later, vars.reg, old(regs.stat[..]), regs.Taken());
            Going(queue, regs, vars, code2, Begun(m, env, t, root, others), [], Args(t) + later, m0,
                  Started(m, t, root), keep + {root})
  {
    ghost var taken, stat := regs.Taken(), regs.stat[..];
    ghost var others := Others([t] + later, vars.reg, stat, taken);
    var e := queue.Pop();
    ghost var c := queue.Contents();
    assert c + [e] == [Pending(root, t)];
    assert |c| == 0 && (c + [e])[0] == e;
    BegunRight(m, env, t, later, root, vars.reg, vars.left, stat, taken, keep, others);
    BegunAccount(m, env, t, later, vars.reg, vars.left, stat, taken, keep);
    BegunCode(code, m0, m, t, root);
    HeadsOne(code, PutInstr(t, e.reg));
    hide Right, Exec, Started, Accounted, Others, Startable;
    p := e.term;
    code2 := code + [PutInstr(e.term, e.reg)];
    regs.Release(e.reg);
    assert regs.Taken() == taken && queue.Contents() == [] && regs.stat[..] == stat;
  }

  lemma StartTodo(t: Term, q: seq<Pending>, k: nat)
    requires Compound(t) && k == |q| && Todo(q) == Todo([]) + OrderArgs(Args(t))
    ensures [HeadOf(t)] + Todo(Rotated(q, k)) == Order(t)
  {
    RotatedTodo([], q, k, OrderArgs(Args(t)));
    OrderOfArgs(t);
  }

  lemma EnoughStarts(used: nat, t: Term)
    requires Compound(t)
    ensures used + Size(t) <= MaxRegs && Size(t) <= QueueSize ==> Enough(used, [], Args(t))
  {
    SizeArgs(t);
  }

  lemma BegunBase(m: Machine, env: Env, t: Term, root: int, others: set<int>, s: State)
    requires Compound(t)
    ensures root in Started(m, t, root).regs && Begun(m, env, t, root, others).m == Started(m, t, root)
    ensures Later(Begun(m, env, t, root, others), s) ==> s.others == others
  {
  }

  lemma AllBuiltGoing(queue: Queue<Pending>, regs: Registers, vars: Variables, code: seq<Instr>, s: State,
                      later: seq<Term>, m0: Machine, m: Machine, env: Env, root: int, t: Term, keep: set<int>)
    requires Compound(t) && root !in keep
    requires Going(queue, regs, vars, code, s, [], later, m0, Started(m, t, root), keep + {root})
    requires RootRight(s, root, Made(t), Started(m, t, root), env)
    ensures Exec(code, m0) == Some(s.m) && Built(m, s.m, root, Made(t), env, s.env, keep)
    ensures queue.Valid() && queue.Contents() == [] && regs.Valid()
    ensures Startable(s.m, s.env, later, vars.reg, vars.left, regs.Taken(), keep + {root})
    ensures regs.Taken() <= s.others + set v | v in vars.reg && Rest([], later, v) > 0 :: vars.reg[v]
  {
    hide Right, RootRight, Built, Startable;
    AllBuilt(s, m, env, root, t, later, vars.reg, vars.left, regs.Taken(), keep);
  }

  /** Generates code for all queued structures. */
  method GenRest(queue: Queue<Pending>, regs: Registers, vars: Variables, code: seq<Instr>, ghost s: State,
                 ghost q: seq<Pending>, ghost later: seq<Term>, ghost m0: Machine, ghost base: Machine,
                 ghost keep: set<int>, ghost root: int, ghost t: Term, ghost env0: Env)
    returns (ok: bool, code2: seq<Instr>, ghost s2: State)
    requires Going(queue, regs, vars, code, s, q, later, m0, base, keep)
    requires RootRight(s, root, t, base, env0) && root in keep && root in base.regs
    modifies queue`top, queue`bottom, queue`added, queue.ring, vars, regs, regs.stat
    ensures ok ==>
              Going(queue, regs, vars, code2, s2, [], later, m0, base, keep) && RootRight(s2, root, t, base, env0) &&
              s2.others == s.others
    ensures ok ==> Heads(code2) == Heads(code) + Todo(q)
    ensures Enough(old(Used(regs)), q, []) ==> ok
  {
    hide Heads, Going, RootRight, Weight, Enough, Registers.Valid, Registers.Taken, FreeList, InUse;
    GoingValid(queue, regs, vars, code, s, q, later, m0, base, keep);
    ghost var enough := Enough(Used(regs), q, []);
    ok, code2, s2 := true, code, s;
    ghost var q2 := q;
    while true
      invariant ok && Going(queue, regs, vars, code2, s2, q2, later, m0, base, keep)
      invariant RootRight(s2, root, t, base, env0) && s2.others == s.others
      invariant Heads(code2) + Todo(q2) == Heads(code) + Todo(q)
      invariant regs.Valid() && (enough ==> Enough(Used(regs), q2, []))
      decreases Weight(q2)
    {
      var empty := NothingQueued(queue, regs, vars, code2, s2, q2, later, m0, base, keep);
      if empty { return; }
      ok, code2, s2, q2 := GenQueued(queue, regs, vars, code2, s2, q2, later, m0, base, keep, root, t, env0);
      if !ok { return; }
    }
  }

  method NothingQueued(queue: Queue<Pending>, regs: Registers, vars: Variables, code: seq<Instr>, ghost s: State,
                       ghost q: seq<Pending>, ghost later: seq<Term>, ghost m0: Machine, ghost base: Machine,
                       ghost keep: set<int>)
    returns (r: bool)
    requires Going(queue, regs, vars, code, s, q, later, m0, base, keep)
    ensures r <==> q == []
  {
    hide Right, Exec, Accounted;
    r := queue.Empty();
  }
}
