/** Terms, the instructions that build them on the heap, and what it means that a heap cell holds a term. */
module TermCode {
  import opened CodeQueue

  datatype Term =
    Var(v: int) | Con(c: int) | Int(n: int) | Nil | List(car: Term, cdr: Term) | Str(f: int, args: seq<Term>)

  predicate Compound(t: Term) {
    t.List? || t.Str?
  }

  /** How often the variable occurs. */
  function Occ(t: Term, v: int): nat
    decreases t
  {
    match t
    case Var(w) => if v == w then 1 else 0
    case List(car, cdr) => Occ(car, v) + Occ(cdr, v)
    case Str(_, args) => OccAll(args, v)
    case _ => 0
  }

  function OccAll(ts: seq<Term>, v: int): nat
    decreases ts
  {
    if ts == [] then 0 else Occ(ts[0], v) + OccAll(ts[1..], v)
  }

  // ---------------------------------------------------------------- the machine

  datatype Cell =
    Ref(a: nat) | CCon(c: int) | CInt(n: int) | CNil | CList(a: nat) | CStr(a: nat) | Functor(f: int, arity: nat)

  type Heap = seq<Cell>

  datatype Machine = Machine(heap: Heap, regs: map<int, Cell>)

  datatype Instr =
    | PutStr(r: int, f: int, arity: nat) | PutList(r: int)
    | GetStr(r: int, f: int, arity: nat) | GetList(r: int)
    | BldCon(c: int) | BldInt(n: int) | BldNil
    | BldTvar(r: int) | BldAvar | BldTval(r: int) | BldTvarListNumcon(n: int)

  // References always lead straight to the cell they stand for; a free cell refers to itself.
  function Deref(h: Heap, c: Cell): Cell {
    if c.Ref? && c.a < |h| then h[c.a] else c
  }

  function Extend(m: Machine, c: Cell): Machine {
    m.(heap := m.heap + [c])
  }

  /** One instruction.  The get instructions only bind free cells here: otherwise they would go on to unify. */
  function Exec1(i: Instr, m: Machine): Option<Machine> {
    var top := |m.heap|;
    match i
    case PutStr(r, f, n) => Some(Machine(m.heap + [Functor(f, n)], m.regs[r := CStr(top)]))
    case PutList(r) => Some(m.(regs := m.regs[r := CList(top)]))
    case GetStr(r, f, n) =>
      if r !in m.regs then None else
        var d := Deref(m.heap, m.regs[r]);
        if d.Ref? && d.a < top && m.heap[d.a] == d then Some(m.(heap := m.heap[d.a := CStr(top)] + [Functor(f, n)]))
            else None
    case GetList(r) =>
      if r !in m.regs then None else
        var d := Deref(m.heap, m.regs[r]);
        if d.Ref? && d.a < top && m.heap[d.a] == d then Some(m.(heap := m.heap[d.a := CList(top)])) else None
    case BldCon(c) => Some(Extend(m, CCon(c)))
    case BldInt(n) => Some(Extend(m, CInt(n)))
    case BldNil => Some(Extend(m, CNil))
    case BldTvar(r) => Some(Machine(m.heap + [Ref(top)], m.regs[r := Ref(top)]))
    case BldAvar => Some(Extend(m, Ref(top)))
    case BldTval(r) => if r !in m.regs then None else Some(Extend(m, Deref(m.heap, m.regs[r])))
    case BldTvarListNumcon(n) => Some(Extend(Extend(m, CList(top + 1)), CInt(n)))
  }

  function Exec(code: seq<Instr>, m: Machine): Option<Machine> {
    if code == [] then Some(m) else
      match Exec(code[..|code| - 1], m)
      case None => None
      case Some(m2) => Exec1(code[|code| - 1], m2)
  }

  lemma ExecOne(code: seq<Instr>, i: Instr, m: Machine)
    ensures Exec(code + [i], m) == match Exec(code, m) case None => None case Some(m2) => Exec1(i, m2)
  {
    assert (code + [i])[..|code|] == code;
  }

  // ---------------------------------------------------------------- what a cell holds

  // The free cell of each variable, and the free cells that subterms are still to be built in.
  type Env = map<int, nat>
  type Holes = map<nat, Term>

  predicate IsHole(h: Heap, c: Cell, t: Term, holes: Holes) {
    c.Ref? && c.a < |h| && h[c.a] == c && c.a in holes && holes[c.a] == t
  }

  /** The cell `c` holds the term `t`, the variables being the cells of `env`, except that the subterms `holes` are
      still missing. */
  predicate Holds(h: Heap, c: Cell, t: Term, env: Env, holes: Holes)
    decreases t
  {
    || IsHole(h, c, t, holes)
    || match t
       case Var(v) => v in env && env[v] < |h| && Deref(h, c) == Ref(env[v])
       case Con(k) => Deref(h, c) == CCon(k)
       case Int(n) => Deref(h, c) == CInt(n)
       case Nil => Deref(h, c) == CNil
       case List(car, cdr) =>
         var d := Deref(h, c);
         d.CList? && d.a + 1 < |h| && Holds(h, h[d.a], car, env, holes) && Holds(h, h[d.a + 1], cdr, env, holes)
       case Str(f, args) =>
         var d := Deref(h, c);
         d.CStr? && d.a + |args| < |h| && h[d.a] == Functor(f, |args|) &&
         forall i :: 0 <= i < |args| ==> Holds(h, h[d.a + 1 + i], args[i], env, holes)
  }

  ghost predicate Within<K, V>(a: map<K, V>, b: map<K, V>) {
    forall k :: k in a ==> k in b && a[k] == b[k]
  }

  /** What a cell holds it still holds when the heap grows. */
  lemma {:induction false} HoldsGrow(h: Heap, h2: Heap, c: Cell, t: Term, env: Env, env2: Env, holes: Holes,
                                     holes2: Holes)
    requires Holds(h, c, t, env, holes) && h <= h2 && Within(env, env2) && Within(holes, holes2)
    ensures Holds(h2, c, t, env2, holes2)
    decreases t
  {
    if !IsHole(h, c, t, holes) {
      var d := Deref(h, c);
      match t
      case List(car, cdr) =>
        HoldsGrow(h, h2, h[d.a], car, env, env2, holes, holes2);
        HoldsGrow(h, h2, h[d.a + 1], cdr, env, env2, holes, holes2);
      case Str(f, args) =>
        forall i | 0 <= i < |args|
          ensures Holds(h2, h2[d.a + 1 + i], args[i], env2, holes2)
        {
          HoldsGrow(h, h2, h[d.a + 1 + i], args[i], env, env2, holes, holes2);
        }
      case _ =>
    }
  }

  /** `h2` is `h` with the free cell `a` bound and more cells added. */
  ghost predicate Filled(h: Heap, h2: Heap, a: nat) {
    && |h| <= |h2| && a < |h| && h[a] == Ref(a) && !h2[a].Ref?
    && forall i :: 0 <= i < |h| && i != a ==> h2[i] == h[i]
  }

  lemma FilledDeref(h: Heap, h2: Heap, a: nat, c: Cell)
    requires Filled(h, h2, a)
    ensures c != Ref(a) && (c.Ref? ==> c.a < |h|) ==> Deref(h2, c) == Deref(h, c)
    ensures c == Ref(a) ==> Deref(h, c) == c && Deref(h2, c) == h2[a] == Deref(h2, h2[a])
  {
  }

  /** A structure that was complete at its top is so after the hole has been filled. */
  lemma FilledTop(h: Heap, h2: Heap, a: nat, c: Cell, t: Term, env: Env, holes: Holes)
    requires Holds(h, c, t, env, holes) && Filled(h, h2, a) && Compound(t) && !IsHole(h, c, t, holes)
    ensures Deref(h2, c) == Deref(h, c)
  {
    hide Holds;
    FilledDeref(h, h2, a, c);
    assert Deref(h, c).CList? || Deref(h, c).CStr? by { HoldsTop(h, c, t, env, holes); }
  }

  lemma HoldsTop(h: Heap, c: Cell, t: Term, env: Env, holes: Holes)
    requires Holds(h, c, t, env, holes) && Compound(t) && !IsHole(h, c, t, holes)
    ensures Deref(h, c).CList? || Deref(h, c).CStr?
  {
  }

  lemma HoldsFillLeaf(h: Heap, h2: Heap, a: nat, c: Cell, t: Term, env: Env, env2: Env, holes: Holes, holes2: Holes)
    requires Holds(h, c, t, env, holes) && Filled(h, h2, a) && !Compound(t) && !IsHole(h, c, t, holes)
    requires Within(env, env2) && forall v :: v in env ==> env[v] != a
    ensures Holds(h2, c, t, env2, holes2)
  {
    FilledDeref(h, h2, a, c);
  }

  /** From `h` to `h2` the missing subterm at `a` has been built. */
  ghost predicate Refill(h: Heap, h2: Heap, a: nat, env: Env, env2: Env, holes: Holes, holes2: Holes) {
    && Filled(h, h2, a) && a in holes && Compound(holes[a])
    && Within(env, env2) && Within(map x | x in holes && x != a :: holes[x], holes2)
    && (forall v :: v in env ==> env[v] != a)
    && Holds(h2, h2[a], holes[a], env2, holes2)
  }

  /** The hole itself holds its term once it is filled. */
  lemma HoldsMissing(h: Heap, h2: Heap, a: nat, c: Cell, t: Term, env: Env, env2: Env, holes: Holes, holes2: Holes)
    requires IsHole(h, c, t, holes)
    requires Refill(h, h2, a, env, env2, holes, holes2)
    ensures Holds(h2, c, t, env2, holes2)
  {
    if c.a == a {
      FilledDeref(h, h2, a, c);
      assert !IsHole(h2, h2[a], t, holes2);
    }
  }

  /** The free cell of a hole holds nothing but the hole's term. */
  lemma OnlyHole(h: Heap, h2: Heap, a: nat, c: Cell, t: Term, env: Env, env2: Env, holes: Holes, holes2: Holes)
    requires Holds(h, Ref(a), t, env, holes) && Refill(h, h2, a, env, env2, holes, holes2)
    ensures a in holes && t == holes[a]
  {
    assert Deref(h, Ref(a)) == Ref(a);
  }

  /** Building the missing subterm of a hole completes whatever had the hole. */
  lemma {:induction false} HoldsFill(h: Heap, h2: Heap, a: nat, c: Cell, t: Term, env: Env, env2: Env, holes: Holes,
                                     holes2: Holes)
    requires Holds(h, c, t, env, holes)
    requires Refill(h, h2, a, env, env2, holes, holes2)
    ensures Holds(h2, c, t, env2, holes2)
    decreases t, 0, 1
  {
    if IsHole(h, c, t, holes) {
      HoldsMissing(h, h2, a, c, t, env, env2, holes, holes2);
    } else if !Compound(t) {
      HoldsFillLeaf(h, h2, a, c, t, env, env2, holes, holes2);
    } else if t.List? {
      HoldsFillList(h, h2, a, c, t, env, env2, holes, holes2);
    } else {
      HoldsFillStr(h, h2, a, c, t, env, env2, holes, holes2);
    }
  }

  lemma {:induction false} HoldsFillList(h: Heap, h2: Heap, a: nat, c: Cell, t: Term, env: Env, env2: Env, holes: Holes,
                                         holes2: Holes)
    requires Holds(h, c, t, env, holes) && Refill(h, h2, a, env, env2, holes, holes2) && t.List? &&
             !IsHole(h, c, t, holes)
    ensures Holds(h2, c, t, env2, holes2)
    decreases t, 0, 0
  {
    FilledTop(h, h2, a, c, t, env, holes);
    var d := Deref(h, c);
    HoldsFillAt(h, h2, a, d.a, t.car, env, env2, holes, holes2);
    HoldsFillAt(h, h2, a, d.a + 1, t.cdr, env, env2, holes, holes2);
  }

  lemma {:induction false} HoldsFillStr(h: Heap, h2: Heap, a: nat, c: Cell, t: Term, env: Env, env2: Env, holes: Holes,
                                        holes2: Holes)
    requires Holds(h, c, t, env, holes) && Refill(h, h2, a, env, env2, holes, holes2) && t.Str? &&
             !IsHole(h, c, t, holes)
    ensures Holds(h2, c, t, env2, holes2)
    decreases t, 0, 0
  {
    FilledTop(h, h2, a, c, t, env, holes);
    var d := Deref(h, c);
    assert d.a != a && h2[d.a] == h[d.a];
    forall i | 0 <= i < |t.args|
      ensures Holds(h2, h2[d.a + 1 + i], t.args[i], env2, holes2)
    {
      HoldsFillAt(h, h2, a, d.a + 1 + i, t.args[i], env, env2, holes, holes2);
    }
  }

  lemma {:induction false} HoldsFillAt(h: Heap, h2: Heap, a: nat, p: nat, t: Term, env: Env, env2: Env, holes: Holes,
                                       holes2: Holes)
    requires p < |h| && Holds(h, h[p], t, env, holes)
    requires Refill(h, h2, a, env, env2, holes, holes2)
    ensures Holds(h2, h2[p], t, env2, holes2)
    decreases t, 1, 0
  {
    if p == a {
      OnlyHole(h, h2, a, h[p], t, env, env2, holes, holes2);
    } else {
      HoldsFill(h, h2, a, h[p], t, env, env2, holes, holes2);
    }
  }
}
