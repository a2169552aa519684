/** Collecting the free variables of a goal by binding variables for a while: those already seen, those of a
    template and those quantified by ^, setof or bagof are bound, and all bindings are undone at the end. */
module ExcessVars {
  import opened TermCode
  import CodeQueue

  // The functors that bind variables, each with its own arity.
  const Caret: int := 0
  const SetOf: int := 1
  const BagOf: int := 2

  predicate IsCaret(t: Term) {
    t.Str? && t.f == Caret && |t.args| == 2
  }

  predicate IsCollector(t: Term) {
    t.Str? && (t.f == SetOf || t.f == BagOf) && |t.args| == 3
  }

  // ---------------------------------------------------------------- free variables

  function VarsOf(t: Term): set<int>
    decreases t
  {
    match t
    case Var(v) => {v}
    case List(car, cdr) => VarsOf(car) + VarsOf(cdr)
    case Str(_, args) => VarsOfAll(args)
    case _ => {}
  }

  function VarsOfAll(ts: seq<Term>): set<int>
    decreases ts
  {
    if ts == [] then {} else VarsOf(ts[0]) + VarsOfAll(ts[1..])
  }

  /** The occurrences of variables, from left to right, that are neither in `scope` nor quantified. */
  function Unscoped(t: Term, scope: set<int>): seq<int>
    decreases t
  {
    match t
    case Var(v) => if v in scope then [] else [v]
    case List(car, cdr) => Unscoped(car, scope) + Unscoped(cdr, scope)
    case Str(_, args) =>
      if IsCaret(t) then Unscoped(args[1], scope + VarsOf(args[0]))
      else if IsCollector(t) then
        Unscoped(args[1], scope + VarsOf(args[0])) + Unscoped(args[2], scope + VarsOf(args[0]))
      else UnscopedAll(args, scope)
    case _ => []
  }

  function UnscopedAll(ts: seq<Term>, scope: set<int>): seq<int>
    decreases ts
  {
    if ts == [] then [] else Unscoped(ts[0], scope) + UnscopedAll(ts[1..], scope)
  }

  /** The elements of `s` that are not known, each at its first occurrence. */
  function Firsts(s: seq<int>, known: set<int>): seq<int> {
    if s == [] then [] else if s[0] in known then Firsts(s[1..], known) else [s[0]] + Firsts(s[1..], known + {s[0]})
  }

  function Elems(s: seq<int>): set<int> {
    set x | x in s
  }

  lemma {:induction false} FirstsFacts(s: seq<int>, known: set<int>)
    ensures Elems(Firsts(s, known)) == Elems(s) - known
    ensures forall i, j :: 0 <= i < j < |Firsts(s, known)| ==> Firsts(s, known)[i] != Firsts(s, known)[j]
  {
    if s != [] {
      assert s == [s[0]] + s[1..];
      assert Elems(s) == {s[0]} + Elems(s[1..]);
      if s[0] in known {
        FirstsFacts(s[1..], known);
      } else {
        FirstsFacts(s[1..], known + {s[0]});
        var f := Firsts(s[1..], known + {s[0]});
        forall i | 0 <= i < |f|
          ensures f[i] != s[0]
        {
          assert f[i] in Elems(f);
        }
        assert Elems([s[0]] + f) == {s[0]} + Elems(f);
        assert Elems(s) == {s[0]} + Elems(s[1..]);
      }
    }
  }

  lemma {:induction false} FirstsConcat(a: seq<int>, b: seq<int>, known: set<int>)
    ensures Firsts(a + b, known) == Firsts(a, known) + Firsts(b, known + Elems(Firsts(a, known)))
  {
    if a == [] {
      assert a + b == b && known + Elems([]) == known;
    } else {
      assert (a + b)[0] == a[0] && (a + b)[1..] == a[1..] + b;
      if a[0] in known {
        FirstsConcat(a[1..], b, known);
      } else {
        FirstsConcat(a[1..], b, known + {a[0]});
        var f := Firsts(a[1..], known + {a[0]});
        assert known + {a[0]} + Elems(f) == known + Elems([a[0]] + f);
      }
    }
  }

  function Outside(s: seq<int>, w: set<int>): seq<int> {
    if s == [] then [] else if s[0] in w then Outside(s[1..], w) else [s[0]] + Outside(s[1..], w)
  }

  lemma {:induction false} OutsideConcat(a: seq<int>, b: seq<int>, w: set<int>)
    ensures Outside(a + b, w) == Outside(a, w) + Outside(b, w)
  {
    if a == [] {
      assert a + b == b;
    } else {
      assert (a + b)[0] == a[0] && (a + b)[1..] == a[1..] + b;
      OutsideConcat(a[1..], b, w);
    }
  }

  /** Knowing more variables is the same as leaving their occurrences out. */
  lemma {:induction false} FirstsOutside(s: seq<int>, known: set<int>, w: set<int>)
    ensures Firsts(Outside(s, w), known) == Firsts(s, known + w)
  {
    if s != [] {
      if s[0] in w {
        FirstsOutside(s[1..], known, w);
      } else {
        var o := Outside(s[1..], w);
        assert ([s[0]] + o)[1..] == o;
        if s[0] in known {
          FirstsOutside(s[1..], known, w);
        } else {
          FirstsOutside(s[1..], known + {s[0]}, w);
          assert known + {s[0]} + w == known + w + {s[0]};
        }
      }
    }
  }

  lemma {:induction false} UnscopedMore(t: Term, scope: set<int>, w: set<int>)
    ensures Unscoped(t, scope + w) == Outside(Unscoped(t, scope), w)
    decreases t
  {
    match t
    case Var(v) =>
    case List(car, cdr) =>
      UnscopedMore(car, scope, w);
      UnscopedMore(cdr, scope, w);
      OutsideConcat(Unscoped(car, scope), Unscoped(cdr, scope), w);
    case Str(_, args) =>
      if IsCaret(t) {
        var u := VarsOf(args[0]);
        UnscopedMore(args[1], scope + u, w);
        assert scope + w + u == scope + u + w;
      } else if IsCollector(t) {
        var u := VarsOf(args[0]);
        UnscopedMore(args[1], scope + u, w);
        UnscopedMore(args[2], scope + u, w);
        assert scope + w + u == scope + u + w;
        OutsideConcat(Unscoped(args[1], scope + u), Unscoped(args[2], scope + u), w);
      } else {
        UnscopedMoreAll(args, scope, w);
      }
    case _ =>
  }

  lemma {:induction false} UnscopedMoreAll(ts: seq<Term>, scope: set<int>, w: set<int>)
    ensures UnscopedAll(ts, scope + w) == Outside(UnscopedAll(ts, scope), w)
    decreases ts
  {
    if ts != [] {
      UnscopedMore(ts[0], scope, w);
      UnscopedMoreAll(ts[1..], scope, w);
      OutsideConcat(Unscoped(ts[0], scope), UnscopedAll(ts[1..], scope), w);
    }
  }

  /** Binding the variables `w` first finds what is free outside their scope. */
  lemma BoundIsScoped(t: Term, w: set<int>, known: set<int>)
    ensures Firsts(Unscoped(t, {}), known + w) == Firsts(Unscoped(t, w), known)
  {
    UnscopedMore(t, {}, w);
    assert {} + w == w;
    FirstsOutside(Unscoped(t, {}), known, w);
  }

  // ---------------------------------------------------------------- the procedure

  /** The variables bound at the moment, in the order of the two local trails, and the answer list so far. */
  class Collector {
    var bound: set<int>
    var templTrail: seq<int>
    var varTrail: seq<int>
    var answers: seq<int>

    constructor ()
      ensures bound == {} && templTrail == [] && varTrail == [] && answers == []
    {
      bound, templTrail, varTrail, answers := {}, [], [], [];
    }

    ghost predicate Valid()
      reads this
    {
      && (forall i :: 0 <= i < |templTrail| ==> templTrail[i] in bound && templTrail[i] !in varTrail)
      && (forall i, j :: 0 <= i < j < |templTrail| ==> templTrail[i] != templTrail[j])
      && (forall i :: 0 <= i < |varTrail| ==> varTrail[i] in bound)
      && (forall i, j :: 0 <= i < j < |varTrail| ==> varTrail[i] != varTrail[j])
    }

    method LocalBindVar(v: int, templ: bool)
      requires Valid() && v !in bound
      modifies this`bound, this`templTrail, this`varTrail
      ensures Valid() && bound == old(bound) + {v}
      ensures if templ then templTrail == old(templTrail) + [v] && varTrail == old(varTrail)
              else varTrail == old(varTrail) + [v] && templTrail == old(templTrail)
    {
      bound := bound + {v};
      if templ { templTrail := templTrail + [v]; } else { varTrail := varTrail + [v]; }
    }

    /** Binds all variables of a term. */
    method MakeGround(t: Term, templ: bool)
      requires Valid()
      modifies this`bound, this`templTrail, this`varTrail
      ensures Valid() && bound == old(bound) + VarsOf(t)
      ensures if templ then Pushed(old(templTrail), templTrail, VarsOf(t) - old(bound)) && varTrail == old(varTrail)
              else Pushed(old(varTrail), varTrail, VarsOf(t) - old(bound)) && templTrail == old(templTrail)
      decreases t
    {
      NonePushed(templTrail);
      NonePushed(varTrail);
      assert VarsOf(t) <= bound ==> VarsOf(t) - bound == {};
      match t {
        case Var(v) =>
          if v !in bound {
            OnePushed(if templ then templTrail else varTrail, v);
            LocalBindVar(v, templ);
          }
        case List(car, cdr) =>
          ghost var before, mid := if templ then templTrail else varTrail, bound;
          MakeGround(car, templ);
          ghost var between, mid2 := if templ then templTrail else varTrail, bound;
          MakeGround(cdr, templ);
          PushedTwice(before, between, if templ then templTrail
                      else varTrail, VarsOf(car) - mid, VarsOf(cdr) - mid2, VarsOf(t) - mid);
        case Str(_, args) =>
          MakeGroundAll(args, templ);
        case _ =>
      }
    }

    /** Binds all variables of some terms. */
    method MakeGroundAll(args: seq<Term>, templ: bool)
      requires Valid()
      modifies this`bound, this`templTrail, this`varTrail
      ensures Valid() && bound == old(bound) + VarsOfAll(args)
      ensures if templ then Pushed(old(templTrail), templTrail, VarsOfAll(args) - old(bound)) &&
              varTrail == old(varTrail)
              else Pushed(old(varTrail), varTrail, VarsOfAll(args) - old(bound)) && templTrail == old(templTrail)
      decreases args
    {
      ghost var before, known := if templ then templTrail else varTrail, bound;
      var i := 0;
      assert args[..0] == [] && VarsOfAll(args[..0]) - known == {};
      NonePushed(before);
      while i < |args|
        invariant 0 <= i <= |args| && Valid() && bound == known + VarsOfAll(args[..i])
        invariant if templ then Pushed(before, templTrail, VarsOfAll(args[..i]) - known) && varTrail == old(varTrail)
                  else Pushed(before, varTrail, VarsOfAll(args[..i]) - known) && templTrail == old(templTrail)
      {
        ghost var between, mid := if templ then templTrail else varTrail, bound;
        MakeGround(args[i], templ);
        VarsOfLast(args, i);
        PushedTwice(before, between, if templ then templTrail else varTrail, VarsOfAll(args[..i]) - known,
                    VarsOf(args[i]) - mid, VarsOfAll(args[..i + 1]) - known);
        i := i + 1;
      }
      assert args[..i] == args;
    }

    /** Unbinds the variables bound on the template trail since it had length `base`. */
    method UndoTempl(base: nat)
      requires Valid() && base <= |templTrail|
      modifies this`bound, this`templTrail
      ensures Valid() && templTrail == old(templTrail[..base]) && bound == old(bound - Elems(templTrail[base..]))
    {
      ghost var t, b := templTrail, bound;
      while |templTrail| != base
        invariant base <= |templTrail| <= |t| && templTrail == t[..|templTrail|] && Valid()
        invariant bound == b - Elems(t[|templTrail|..])
        decreases |templTrail|
      {
        var n := |templTrail| - 1;
        assert t[n..] == [t[n]] + t[n + 1..];
        bound := bound - {templTrail[n]};
        templTrail := templTrail[..n];
      }
    }

    /** Puts the free variables of a goal that are not bound yet on the answer list, and binds them. */
    method Excess(t: Term)
      requires Valid()
      modifies this
      ensures Valid() && templTrail == old(templTrail)
      ensures Collected(old(answers), answers, old(varTrail), varTrail, old(bound), bound, Unscoped(t, {}))
      decreases t, 1
    {
      match t {
        case Var(v) =>
          if v !in bound {
            answers := answers + [v];
            LocalBindVar(v, false);
          }
        case List(car, cdr) =>
          ExcessList(t);
        case Str(_, args) =>
          if IsCaret(t) {
            ExcessCaret(t);
          } else if IsCollector(t) {
            ExcessCollector(t);
          } else {
            ExcessArgs(t);
          }
        case _ =>
      }
    }

    /** A list cell: its head, then its tail. */
    method ExcessList(t: Term)
      requires Valid() && t.List?
      modifies this
      ensures Valid() && templTrail == old(templTrail)
      ensures Collected(old(answers), answers, old(varTrail), varTrail, old(bound), bound, Unscoped(t, {}))
      decreases t, 0
    {
      hide Firsts, Collected, Elems;
      ghost var answers0, trail0, bound0 := answers, varTrail, bound;
      Excess(t.car);
      ghost var answers1, trail1, bound1 := answers, varTrail, bound;
      Excess(t.cdr);
      BothCollected(answers0, answers1, answers, trail0, trail1, varTrail, bound0, bound1, bound,
                    Unscoped(t.car, {}), Unscoped(t.cdr, {}));
    }

    /** A goal under ^, whose first argument's variables are bound meanwhile. */
    method ExcessCaret(t: Term)
      requires Valid() && IsCaret(t)
      modifies this
      ensures Valid() && templTrail == old(templTrail)
      ensures Collected(old(answers), answers, old(varTrail), varTrail, old(bound), bound, Unscoped(t, {}))
      decreases t, 0
    {
      ghost var known, w := bound, VarsOf(t.args[0]);
      assert {} + w == w;
      BoundIsScoped(t.args[1], w, known);
      hide Firsts, Unscoped, Collected, VarsOf;
      ghost var answers0, trail0 := answers, varTrail;
      var base := |templTrail|;
      MakeGround(t.args[0], true);
      Excess(t.args[1]);
      Unquantified(answers0, answers, trail0, varTrail, known, w, bound, Unscoped(t.args[1], {}), Unscoped(t, {}));
      UndoTempl(base);
    }

    /** A setof or bagof goal: its template's variables are bound meanwhile. */
    method ExcessCollector(t: Term)
      requires Valid() && IsCollector(t)
      modifies this
      ensures Valid() && templTrail == old(templTrail)
      ensures Collected(old(answers), answers, old(varTrail), varTrail, old(bound), bound, Unscoped(t, {}))
      decreases t, 0
    {
      ghost var known, w := bound, VarsOf(t.args[0]);
      ghost var o1, o2 := Unscoped(t.args[1], {}), Unscoped(t.args[2], {});
      assert {} + w == w;
      BoundGoals(t.args[1], t.args[2], w, known);
      hide Firsts, Unscoped, Collected, VarsOf;
      ghost var answers0, trail0 := answers, varTrail;
      var base := |templTrail|;
      MakeGround(t.args[0], true);
      Excess(t.args[1]);
      ghost var answers1, trail1, bound1 := answers, varTrail, bound;
      Excess(t.args[2]);
      BothCollected(answers0, answers1, answers, trail0, trail1, varTrail, known + w, bound1, bound, o1, o2);
      Unquantified(answers0, answers, trail0, varTrail, known, w, bound, o1 + o2, Unscoped(t, {}));
      UndoTempl(base);
    }

    /** Any other structure: its arguments one after the other. */
    method ExcessArgs(t: Term)
      requires Valid() && t.Str? && !IsCaret(t) && !IsCollector(t)
      modifies this
      ensures Valid() && templTrail == old(templTrail)
      ensures Collected(old(answers), answers, old(varTrail), varTrail, old(bound), bound, Unscoped(t, {}))
      decreases t, 0
    {
      hide Firsts, Unscoped, UnscopedAll, Collected, Elems;
      ghost var known, answers0, trail0 := bound, answers, varTrail;
      var i := 0;
      NoneCollected(answers, varTrail, bound, t.args);
      while i < |t.args|
        invariant 0 <= i <= |t.args| && Valid() && templTrail == old(templTrail)
        invariant Collected(answers0, answers, trail0, varTrail, known, bound, UnscopedAll(t.args[..i], {}))
      {
        UnscopedLast(t.args, i);
        ghost var answers1, trail1, bound1 := answers, varTrail, bound;
        Excess(t.args[i]);
        BothCollected(answers0, answers1, answers, trail0, trail1, varTrail, known, bound1, bound,
                      UnscopedAll(t.args[..i], {}), Unscoped(t.args[i], {}));
        i := i + 1;
      }
      AllCollected(t, i);
    }

    /** Unbinds everything bound on the other trail. */
    method UndoVars()
      requires Valid()
      modifies this`bound, this`varTrail
      ensures varTrail == [] && bound == old(bound - Elems(varTrail))
    {
      ghost var t, b := varTrail, bound;
      while |varTrail| != 0
        invariant |varTrail| <= |t| && varTrail == t[..|varTrail|] && bound == b - Elems(t[|varTrail|..])
        decreases |varTrail|
      {
        var n := |varTrail| - 1;
        assert t[n..] == [t[n]] + t[n + 1..];
        bound := bound - {varTrail[n]};
        varTrail := varTrail[..n];
      }
      assert t[0..] == t;
    }
  }

  /** The trail has grown by the variables `added`. */
  ghost predicate Pushed(trail0: seq<int>, trail: seq<int>, added: set<int>) {
    trail0 <= trail && Elems(trail[|trail0|..]) == added
  }

  lemma NonePushed(trail: seq<int>)
    ensures Pushed(trail, trail, {})
  {
  }

  lemma OnePushed(trail: seq<int>, v: int)
    ensures Pushed(trail, trail + [v], {v})
  {
    assert (trail + [v])[|trail|..] == [v];
  }

  lemma PushedTwice(a: seq<int>, b: seq<int>, c: seq<int>, x: set<int>, y: set<int>, z: set<int>)
    requires Pushed(a, b, x) && Pushed(b, c, y) && z == x + y
    ensures Pushed(a, c, z)
  {
    assert c[|a|..] == b[|a|..] + c[|b|..];
    assert Elems(b[|a|..] + c[|b|..]) == Elems(b[|a|..]) + Elems(c[|b|..]);
  }

  lemma {:induction false} VarsOfLast(ts: seq<Term>, i: int)
    requires 0 <= i < |ts|
    ensures VarsOfAll(ts[..i + 1]) == VarsOfAll(ts[..i]) + VarsOf(ts[i])
  {
    if i == 0 {
      assert ts[..1] == [ts[0]] && [ts[0]][1..] == [] && ts[..0] == [];
    } else {
      VarsOfLast(ts[1..], i - 1);
      assert ts[1..][..i] == ts[..i + 1][1..] && ts[1..][..i - 1] == ts[..i][1..];
    }
  }

  /** The variables among the occurrences `o` that were not bound before are on the answer list, the trail, and
      bound. */
  ghost predicate Collected(answers0: seq<int>, answers: seq<int>, trail0: seq<int>, trail: seq<int>,
                            known: set<int>, bound: set<int>, o: seq<int>) {
    var x := Firsts(o, known);
    answers == answers0 + x && trail == trail0 + x && bound == known + Elems(x)
  }

  lemma NoneCollected(answers: seq<int>, trail: seq<int>, known: set<int>, ts: seq<Term>)
    ensures Collected(answers, answers, trail, trail, known, known, UnscopedAll(ts[..0], {}))
  {
  }

  lemma AllCollected(t: Term, n: int)
    requires t.Str? && !IsCaret(t) && !IsCollector(t) && n == |t.args|
    ensures UnscopedAll(t.args[..n], {}) == Unscoped(t, {})
  {
    assert t.args[..n] == t.args;
  }

  lemma CollectedTwice(known: set<int>, a: seq<int>, b: seq<int>)
    ensures Firsts(a + b, known) == Firsts(a, known) + Firsts(b, known + Elems(Firsts(a, known)))
    ensures Elems(Firsts(a + b, known)) == Elems(Firsts(a, known)) + Elems(Firsts(b, known + Elems(Firsts(a, known))))
  {
    FirstsConcat(a, b, known);
  }

  lemma {:induction false} UnscopedLast(ts: seq<Term>, i: int)
    requires 0 <= i < |ts|
    ensures UnscopedAll(ts[..i + 1], {}) == UnscopedAll(ts[..i], {}) + Unscoped(ts[i], {})
  {
    if i == 0 {
      assert ts[..1] == [ts[0]] && [ts[0]][1..] == [] && ts[..0] == [];
    } else {
      UnscopedLast(ts[1..], i - 1);
      assert ts[1..][..i] == ts[..i + 1][1..] && ts[1..][..i - 1] == ts[..i][1..];
    }
  }

  /** Two goals under the same quantifier. */
  lemma BoundGoals(g: Term, h: Term, w: set<int>, known: set<int>)
    ensures Firsts(Unscoped(g, {}) + Unscoped(h, {}), known + w) == Firsts(Unscoped(g, w) + Unscoped(h, w), known)
  {
    UnscopedMore(g, {}, w);
    UnscopedMore(h, {}, w);
    assert {} + w == w;
    OutsideConcat(Unscoped(g, {}), Unscoped(h, {}), w);
    FirstsOutside(Unscoped(g, {}) + Unscoped(h, {}), known, w);
  }

  lemma BothCollected(a0: seq<int>, a1: seq<int>, a2: seq<int>, t0: seq<int>, t1: seq<int>, t2: seq<int>,
                      known: set<int>, b1: set<int>, b2: set<int>, o1: seq<int>, o2: seq<int>)
    requires Collected(a0, a1, t0, t1, known, b1, o1) && Collected(a1, a2, t1, t2, b1, b2, o2)
    ensures Collected(a0, a2, t0, t2, known, b2, o1 + o2)
  {
    CollectedTwice(known, o1, o2);
  }

  /** Unbinding the quantified variables `w` leaves the variables found bound. */
  lemma Unquantified(a0: seq<int>, a: seq<int>, t0: seq<int>, t: seq<int>, known: set<int>, w: set<int>,
                     bound: set<int>, o: seq<int>, scoped: seq<int>)
    requires Collected(a0, a, t0, t, known + w, bound, o) && Firsts(o, known + w) == Firsts(scoped, known)
    ensures Collected(a0, a, t0, t, known, bound - (w - known), scoped)
  {
    FirstsFacts(o, known + w);
  }

  // ---------------------------------------------------------------- the builtin

  /** The variables at the front of the given list, up to the first element that is no new variable. */
  function Leading(ts: seq<Term>, known: set<int>): seq<int> {
    if ts == [] || !ts[0].Var? || ts[0].v in known then [] else [ts[0].v] + Leading(ts[1..], known + {ts[0].v})
  }

  lemma {:induction false} LeadingFacts(ts: seq<Term>, i: nat, known: set<int>)
    requires i <= |ts| && forall k :: 0 <= k < i ==> ts[k].Var? && ts[k].v !in known
    requires forall j, k :: 0 <= j < k < i ==> ts[j] != ts[k]
    requires i < |ts| ==> !ts[i].Var? || ts[i].v in known || ts[i] in ts[..i]
    ensures |Leading(ts, known)| == i && forall k :: 0 <= k < i ==> Leading(ts, known)[k] == ts[k].v
  {
    if i > 0 {
      assert forall k :: 0 <= k < i - 1 ==> ts[1..][k] == ts[k + 1];
      assert i < |ts| && ts[i] in ts[..i] ==> ts[i] == ts[0] || ts[i] in ts[1..][..i - 1];
      LeadingFacts(ts[1..], i - 1, known + {ts[0].v});
    }
  }

  lemma ElemsConcat(a: seq<int>, b: seq<int>)
    ensures Elems(a + b) == Elems(a) + Elems(b)
  {
  }

  // ---------------------------------------------------------------- free occurrences

  ghost predicate Occurs(t: Term, v: int)
    decreases t
  {
    match t
    case Var(x) => x == v
    case List(car, cdr) => Occurs(car, v) || Occurs(cdr, v)
    case Str(_, args) => exists i :: 0 <= i < |args| && Occurs(args[i], v)
    case _ => false
  }

  /** The variable is free in the goal: in v ^ g, setof(v, g, s) and bagof(v, g, s) the variables of v are bound. */
  ghost predicate Free(t: Term, v: int)
    decreases t
  {
    match t
    case Var(x) => x == v
    case List(car, cdr) => Free(car, v) || Free(cdr, v)
    case Str(f, args) =>
      if f == Caret && |args| == 2 then Free(args[1], v) && !Occurs(args[0], v)
      else if f == SetOf && |args| == 3 then (Free(args[1], v) || Free(args[2], v)) && !Occurs(args[0], v)
      else if f == BagOf && |args| == 3 then (Free(args[1], v) || Free(args[2], v)) && !Occurs(args[0], v)
      else exists i :: 0 <= i < |args| && Free(args[i], v)
    case _ => false
  }

  lemma {:induction false} OccursIff(t: Term, v: int)
    ensures v in VarsOf(t) <==> Occurs(t, v)
    decreases t
  {
    match t
    case List(car, cdr) =>
      OccursIff(car, v);
      OccursIff(cdr, v);
    case Str(_, args) => OccursIffAll(args, v);
    case _ =>
  }

  lemma {:induction false} OccursIffAll(ts: seq<Term>, v: int)
    ensures v in VarsOfAll(ts) <==> exists i :: 0 <= i < |ts| && Occurs(ts[i], v)
    decreases ts
  {
    if ts != [] {
      OccursIff(ts[0], v);
      OccursIffAll(ts[1..], v);
      if i :| 0 <= i < |ts[1..]| && Occurs(ts[1..][i], v) { assert Occurs(ts[i + 1], v); }
      if i :| 0 <= i < |ts| && Occurs(ts[i], v) && i > 0 { assert Occurs(ts[1..][i - 1], v); }
    }
  }

  /** The occurrences found are those of the free variables outside the scope. */
  lemma {:induction false} UnscopedIffFree(t: Term, scope: set<int>, v: int)
    ensures v in Unscoped(t, scope) <==> Free(t, v) && v !in scope
    decreases t
  {
    match t
    case Var(_) =>
    case List(car, cdr) =>
      UnscopedIffFree(car, scope, v);
      UnscopedIffFree(cdr, scope, v);
    case Str(f, args) =>
      if f == Caret && |args| == 2 {
        OccursIff(args[0], v);
        UnscopedIffFree(args[1], scope + VarsOf(args[0]), v);
      } else if (f == SetOf || f == BagOf) && |args| == 3 {
        OccursIff(args[0], v);
        UnscopedIffFree(args[1], scope + VarsOf(args[0]), v);
        UnscopedIffFree(args[2], scope + VarsOf(args[0]), v);
      } else {
        UnscopedAllIffFree(args, scope, v);
      }
    case _ =>
  }

  lemma {:induction false} UnscopedAllIffFree(ts: seq<Term>, scope: set<int>, v: int)
    ensures v in UnscopedAll(ts, scope) <==> (exists i :: 0 <= i < |ts| && Free(ts[i], v)) && v !in scope
    decreases ts
  {
    if ts != [] {
      UnscopedIffFree(ts[0], scope, v);
      UnscopedAllIffFree(ts[1..], scope, v);
      if i :| 0 <= i < |ts[1..]| && Free(ts[1..][i], v) { assert Free(ts[i + 1], v); }
      if i :| 0 <= i < |ts| && Free(ts[i], v) && i > 0 { assert Free(ts[1..][i - 1], v); }
    }
  }

  // ---------------------------------------------------------------- the size of the trail

  const MaxLocalTrail: nat := 32 * 1024

  function Occurrences(t: Term): nat
    decreases t
  {
    match t
    case Var(_) => 1
    case List(car, cdr) => Occurrences(car) + Occurrences(cdr)
    case Str(_, args) => OccurrencesAll(args)
    case _ => 0
  }

  function OccurrencesAll(ts: seq<Term>): nat
    decreases ts
  {
    if ts == [] then 0 else Occurrences(ts[0]) + OccurrencesAll(ts[1..])
  }

  lemma SumBound(a: set<int>, b: set<int>)
    ensures |a + b| <= |a| + |b|
  {
    assert a + b == a + (b - a) && b == (b - a) + (b * a);
  }

  lemma {:induction false} VarsCounted(t: Term)
    ensures |VarsOf(t)| <= Occurrences(t)
    decreases t
  {
    match t
    case List(car, cdr) =>
      VarsCounted(car);
      VarsCounted(cdr);
      SumBound(VarsOf(car), VarsOf(cdr));
    case Str(_, args) => VarsCountedAll(args);
    case _ =>
  }

  lemma {:induction false} VarsCountedAll(ts: seq<Term>)
    ensures |VarsOfAll(ts)| <= OccurrencesAll(ts)
    decreases ts
  {
    if ts != [] {
      VarsCounted(ts[0]);
      VarsCountedAll(ts[1..]);
      SumBound(VarsOf(ts[0]), VarsOfAll(ts[1..]));
    }
  }

  lemma {:induction false} DistinctCount(s: seq<int>)
    requires forall i, j :: 0 <= i < j < |s| ==> s[i] != s[j]
    ensures |Elems(s)| == |s|
  {
    if s != [] {
      DistinctCount(s[1..]);
      assert s == [s[0]] + s[1..];
      ElemsConcat([s[0]], s[1..]);
      assert Elems([s[0]]) == {s[0]} && s[0] !in s[1..];
    }
  }

  // The variables put on the trail that is undone at the end.
  function Trailed(goal: Term, templ: Term, given: seq<Term>): set<int> {
    Elems(Leading(given, {})) + VarsOf(templ) + Elems(Unscoped(goal, {}))
  }

  predicate Warned(goal: Term, given: seq<Term>) {
    Occurrences(goal) + OccurrencesAll(given) > MaxLocalTrail
  }

  lemma {:induction false} LeadingIn(given: seq<Term>, known: set<int>)
    ensures Elems(Leading(given, known)) <= VarsOfAll(given)
    decreases given
  {
    if given != [] && given[0].Var? && given[0].v !in known {
      LeadingIn(given[1..], known + {given[0].v});
      ElemsConcat([given[0].v], Leading(given[1..], known + {given[0].v}));
    }
  }

  lemma {:induction false} UnscopedIn(t: Term, scope: set<int>)
    ensures Elems(Unscoped(t, scope)) <= VarsOf(t)
    decreases t
  {
    match t
    case List(car, cdr) =>
      UnscopedIn(car, scope);
      UnscopedIn(cdr, scope);
      ElemsConcat(Unscoped(car, scope), Unscoped(cdr, scope));
    case Str(_, args) =>
      if IsCaret(t) {
        UnscopedIn(args[1], scope + VarsOf(args[0]));
        ArgIn(args, 1);
      } else if IsCollector(t) {
        UnscopedIn(args[1], scope + VarsOf(args[0]));
        UnscopedIn(args[2], scope + VarsOf(args[0]));
        ArgIn(args, 1);
        ArgIn(args, 2);
        ElemsConcat(Unscoped(args[1], scope + VarsOf(args[0])), Unscoped(args[2], scope + VarsOf(args[0])));
      } else {
        UnscopedInAll(args, scope);
      }
    case _ =>
  }

  lemma {:induction false} UnscopedInAll(ts: seq<Term>, scope: set<int>)
    ensures Elems(UnscopedAll(ts, scope)) <= VarsOfAll(ts)
    decreases ts
  {
    if ts != [] {
      UnscopedIn(ts[0], scope);
      UnscopedInAll(ts[1..], scope);
      ElemsConcat(Unscoped(ts[0], scope), UnscopedAll(ts[1..], scope));
    }
  }

  lemma {:induction false} ArgIn(ts: seq<Term>, i: int)
    requires 0 <= i < |ts|
    ensures VarsOf(ts[i]) <= VarsOfAll(ts)
    decreases ts
  {
    if i > 0 { ArgIn(ts[1..], i - 1); }
  }

  /** Unless there is a warning the trail does not overflow, if the template has no variables of its own. */
  lemma WarnedBefore(goal: Term, templ: Term, given: seq<Term>)
    requires VarsOf(templ) <= VarsOf(goal) + VarsOfAll(given) && |Trailed(goal, templ, given)| > MaxLocalTrail
    ensures Warned(goal, given)
  {
    hide VarsOf, VarsOfAll, Leading, Unscoped, Occurrences, OccurrencesAll;
    LeadingIn(given, {});
    UnscopedIn(goal, {});
    VarsCounted(goal);
    VarsCountedAll(given);
    SumBound(VarsOf(goal), VarsOfAll(given));
    CodeQueue.NoMore(Trailed(goal, templ, given), VarsOf(goal) + VarsOfAll(given));
  }

  /** A list of `n` different variables. */
  function VarList(n: nat, from: int): Term {
    if n == 0 then Nil else List(Var(from), VarList(n - 1, from + 1))
  }

  lemma {:induction false} VarListFacts(n: nat, from: int)
    ensures Occurrences(VarList(n, from)) == n
    ensures forall x :: x in Elems(Unscoped(VarList(n, from), {})) <==> from <= x < from + n
    ensures |Elems(Unscoped(VarList(n, from), {}))| == n
  {
    if n > 0 {
      VarListFacts(n - 1, from + 1);
      var rest := Unscoped(VarList(n - 1, from + 1), {});
      ElemsConcat([from], rest);
      assert Elems([from]) == {from} && from !in Elems(rest);
    }
  }

  ghost function Above(s: set<int>): (m: int)
    ensures forall x :: x in s ==> x < m
  {
    if forall x :: x !in s then 0 else
      var x :| x in s;
      var m := Above(s - {x});
      assert s == {x} + (s - {x});
      if x < m then m else x + 1
  }

  /** The variables of the template are not counted: if it has any, then for a goal that is a list of 32768 other
      variables the trail overflows unnoticed. */
  lemma OverflowUnnoticed(templ: Term)
    requires VarsOf(templ) != {}
    ensures var goal := VarList(MaxLocalTrail, Above(VarsOf(templ)));
            |Trailed(goal, templ, [])| > MaxLocalTrail && !Warned(goal, [])
  {
    hide VarsOf, Unscoped;
    var w := VarsOf(templ);
    var goal := VarList(MaxLocalTrail, Above(w));
    VarListFacts(MaxLocalTrail, Above(w));
    var x := Elems(Unscoped(goal, {}));
    assert w !! x;
    assert Elems([]) == {};
    assert Trailed(goal, templ, []) == w + x;
    assert |w + x| == |w| + |x|;
  }

  /** Exactly when every overflow of the trail is announced: the template has no variables. */
  lemma WarnedIffGround(templ: Term)
    ensures (forall goal, given :: |Trailed(goal, templ, given)| > MaxLocalTrail ==> Warned(goal, given)) <==>
            VarsOf(templ) == {}
  {
    hide VarsOf, Trailed, Warned;
    if VarsOf(templ) != {} {
      OverflowUnnoticed(templ);
    } else {
      forall goal, given | |Trailed(goal, templ, given)| > MaxLocalTrail
        ensures Warned(goal, given)
      {
        WarnedBefore(goal, templ, given);
      }
    }
  }

  // ---------------------------------------------------------------- the whole procedure

  /** The given variables, followed by the distinct variables of the goal that are neither given, nor in the
      template, nor quantified, in the order in which they first occur.  All variables are unbound again at the
      end.  `overflow` says whether the trail that is undone at the end has become longer than there is room for. */
  method ExcessVars(goal: Term, templ: Term, given: seq<Term>, c: Collector)
    returns (answers: seq<int>, wellFormed: bool, warned: bool, overflow: bool)
    requires c.bound == {} && c.templTrail == [] && c.varTrail == [] && c.answers == []
    modifies c
    ensures c.bound == {} && c.templTrail == [] && c.varTrail == []
    ensures var g := Leading(given, {});
            answers == g + Firsts(Unscoped(goal, Elems(g) + VarsOf(templ)), {}) && (wellFormed <==> |g| == |given|)
    ensures forall v :: v in answers <==>
              v in Leading(given, {}) || (Free(goal, v) && !Occurs(templ, v))
    ensures forall i, j :: 0 <= i < j < |answers| ==> answers[i] != answers[j]
    ensures warned <==> Warned(goal, given)
    ensures overflow <==> |Trailed(goal, templ, given)| > MaxLocalTrail
  {
    hide Unscoped, Leading, Firsts, VarsOf, Elems, Occurrences, OccurrencesAll, Free, Occurs;
    warned := Warned(goal, given);
    wellFormed := CollectGiven(c, given);
    ghost var g, w := c.answers, Elems(c.answers) + VarsOf(templ);
    c.MakeGround(templ, false);
    BoundIsScoped(goal, w, {});
    assert {} + w == w;
    TrailIsBound(g, c.varTrail, VarsOf(templ));
    ElemsConcat(c.varTrail, Firsts(Unscoped(goal, {}), w));
    c.Excess(goal);
    answers := c.answers;
    overflow := |c.varTrail| > MaxLocalTrail;
    TrailedAll(goal, w, c.varTrail);
    c.UndoTempl(0);
    c.UndoVars();
    AnswersAre(goal, templ, g, w);
  }

  /** The answers are the given variables and the free ones of the goal that are not in the template, each once. */
  lemma AnswersAre(goal: Term, templ: Term, g: seq<int>, w: set<int>)
    requires w == Elems(g) + VarsOf(templ) && forall i, j :: 0 <= i < j < |g| ==> g[i] != g[j]
    ensures var answers := g + Firsts(Unscoped(goal, w), {});
            && (forall v :: v in answers <==> v in g || (Free(goal, v) && !Occurs(templ, v)))
            && forall i, j :: 0 <= i < j < |answers| ==> answers[i] != answers[j]
  {
    hide Free, Occurs, Unscoped, VarsOf, Firsts;
    var f := Firsts(Unscoped(goal, w), {});
    FirstsFacts(Unscoped(goal, w), {});
    forall v
      ensures v in f <==> Free(goal, v) && v !in g && !Occurs(templ, v)
    {
      UnscopedIffFree(goal, w, v);
      OccursIff(templ, v);
      assert v in f <==> v in Elems(f);
      assert v in Unscoped(goal, w) <==> v in Elems(Unscoped(goal, w));
    }
    forall i, j | 0 <= i < j < |g + f|
      ensures (g + f)[i] != (g + f)[j]
    {
      if i < |g| && j >= |g| { assert f[j - |g|] in f; }
    }
  }

  lemma TrailedAll(goal: Term, w: set<int>, trail: seq<int>)
    requires Elems(trail) == w + Elems(Firsts(Unscoped(goal, {}), w))
    requires forall i, j :: 0 <= i < j < |trail| ==> trail[i] != trail[j]
    ensures |trail| == |w + Elems(Unscoped(goal, {}))|
  {
    FirstsFacts(Unscoped(goal, {}), w);
    DistinctCount(trail);
    assert w + (Elems(Unscoped(goal, {})) - w) == w + Elems(Unscoped(goal, {}));
  }

  /** Puts the given variables on the answer list and binds them, up to anything that is no new variable. */
  method CollectGiven(c: Collector, given: seq<Term>) returns (wellFormed: bool)
    requires c.Valid() && c.bound == {} && c.templTrail == [] && c.varTrail == [] && c.answers == []
    modifies c
    ensures c.Valid() && c.templTrail == [] && c.answers == c.varTrail && c.bound == Elems(c.varTrail)
    ensures c.answers == Leading(given, {}) && (wellFormed <==> |c.answers| == |given|)
  {
    var i := 0;
    wellFormed := true;
    while i < |given| && wellFormed
      invariant 0 <= i <= |given| && c.Valid() && c.templTrail == [] && c.answers == c.varTrail && |c.answers| == i
      invariant forall k :: 0 <= k < i ==> given[k] == Var(c.answers[k])
      invariant c.bound == Elems(c.varTrail)
      invariant !wellFormed ==> i < |given| && (!given[i].Var? || given[i].v in c.bound)
      decreases |given| - i, if wellFormed then 1 else 0
    {
      if given[i].Var? && given[i].v !in c.bound {
        ElemsConcat(c.varTrail, [given[i].v]);
        c.answers := c.answers + [given[i].v];
        c.LocalBindVar(given[i].v, false);
        i := i + 1;
      } else {
        wellFormed := false;
      }
    }
    LeadingIs(given, c.answers, wellFormed);
  }

  lemma LeadingIs(given: seq<Term>, g: seq<int>, wellFormed: bool)
    requires |g| <= |given| && (forall k :: 0 <= k < |g| ==> given[k] == Var(g[k]))
    requires forall j, k :: 0 <= j < k < |g| ==> g[j] != g[k]
    requires if wellFormed then |g| == |given| else |g| < |given| && (!given[|g|].Var? || given[|g|].v in Elems(g))
    ensures Leading(given, {}) == g && (wellFormed <==> |g| == |given|)
  {
    if !wellFormed && given[|g|].Var? {
      var k :| 0 <= k < |g| && g[k] == given[|g|].v;
      assert given[..|g|][k] == given[|g|];
    }
    LeadingFacts(given, |g|, {});
  }

  lemma TrailIsBound(g: seq<int>, trail: seq<int>, w: set<int>)
    requires Pushed(g, trail, w - Elems(g))
    ensures Elems(trail) == Elems(g) + w
  {
    assert trail == g + trail[|g|..];
    ElemsConcat(g, trail[|g|..]);
  }

  /** What is found has no repetitions, and consists of exactly the free variables. */
  lemma ExcessFacts(goal: Term, scope: set<int>)
    ensures Elems(Firsts(Unscoped(goal, scope), {})) == Elems(Unscoped(goal, scope))
    ensures forall i, j :: 0 <= i < j < |Firsts(Unscoped(goal, scope), {})| ==>
              Firsts(Unscoped(goal, scope), {})[i] != Firsts(Unscoped(goal, scope), {})[j]
  {
    FirstsFacts(Unscoped(goal, scope), {});
  }
}

