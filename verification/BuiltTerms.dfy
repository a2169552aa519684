/** What the term compiler makes of a term: a list that is the last argument of a structure, or the rest of a list, and
    starts with a small integer gets a short form, for which the integer is converted to an `int` of 32 bits.  Which
    terms this leaves as they are, and the order in which their structures are built. */
module BuiltTerms {
  import opened CodeQueue
  import opened TermCode

  /** The integer as an `int` of 32 bits. */
  function Narrow(n: int): (r: int)
    ensures -0x8000_0000 <= r < 0x8000_0000 && (r - n) % 0x1_0000_0000 == 0
    ensures -0x8000_0000 <= n < 0x8000_0000 ==> r == n
  {
    (n + 0x8000_0000) % 0x1_0000_0000 - 0x8000_0000
  }

  /** The list `t` starts with an integer that the short form takes. */
  predicate Short(t: Term): (r: bool)
    ensures r <==> t.List? && t.car.Int? && t.car.n % 0x1_0000_0000 <= 0xffff
  {
    t.List? && t.car.Int? && 0 <= Narrow(t.car.n) <= 0xffff
  }

  function Args(t: Term): seq<Term>
    requires Compound(t)
  {
    if t.List? then [t.car, t.cdr] else t.args
  }

  /** The term built for an argument. */
  function MadeArg(t: Term, isLast: bool): Term
    decreases t, 1
  {
    if !Compound(t) then t
    else if isLast && Short(t) then List(Int(Narrow(t.car.n)), MadeArg(t.cdr, true))
    else Made(t)
  }

  /** The term built for a structure that is queued. */
  function Made(t: Term): (u: Term)
    requires Compound(t)
    ensures u.List? == t.List? && u.Str? == t.Str? && (t.Str? ==> u.f == t.f)
    decreases t, 0
  {
    if t.List? then List(MadeArg(t.car, false), MadeArg(t.cdr, true)) else Str(t.f, MadeArgs(t.args))
  }

  function MadeArgs(ts: seq<Term>): (us: seq<Term>)
    ensures |us| == |ts|
    decreases ts
  {
    if ts == [] then [] else [MadeArg(ts[0], |ts| == 1)] + MadeArgs(ts[1..])
  }

  lemma {:induction false} MadeArgsAt(ts: seq<Term>, i: nat)
    requires i < |ts|
    ensures MadeArgs(ts)[i] == MadeArg(ts[i], i + 1 == |ts|)
    decreases ts
  {
    if i > 0 { MadeArgsAt(ts[1..], i - 1); }
  }

  lemma MadeFacts(t: Term)
    requires Compound(t)
    ensures Args(Made(t)) == MadeArgs(Args(t)) && |Args(Made(t))| == |Args(t)|
  {
    if t.List? { assert [t.car, t.cdr][1..] == [t.cdr]; }
  }

  // ---------------------------------------------------------------- when it is the term itself

  /** No integer that the short form takes lies outside its range: `t` is an argument. */
  ghost predicate FitsArg(t: Term, isLast: bool)
    decreases t, 1
  {
    (isLast && Short(t) ==> 0 <= t.car.n <= 0xffff) && Fits(t)
  }

  /** Every integer between 0 and 65535 modulo 2^32 that starts a list which is a last argument is one of these. */
  ghost predicate Fits(t: Term)
    decreases t, 0
  {
    match t
    case List(car, cdr) => FitsArg(car, false) && FitsArg(cdr, true)
    case Str(_, args) => forall i :: 0 <= i < |args| ==> FitsArg(args[i], i + 1 == |args|)
    case _ => true
  }

  lemma {:induction false} MadeArgIff(t: Term, isLast: bool)
    ensures MadeArg(t, isLast) == t <==> FitsArg(t, isLast)
    decreases t, 1
  {
    if isLast && Short(t) {
      MadeArgIff(t.car, false);
      MadeArgIff(t.cdr, true);
    } else if Compound(t) {
      MadeIff(t);
    }
  }

  /** The term built is the term given exactly if every such integer fits. */
  lemma {:induction false} MadeIff(t: Term)
    requires Compound(t)
    ensures Made(t) == t <==> Fits(t)
    decreases t, 0
  {
    if t.List? {
      MadeArgIff(t.car, false);
      MadeArgIff(t.cdr, true);
    } else {
      forall i | 0 <= i < |t.args|
        ensures MadeArgs(t.args)[i] == t.args[i] <==> FitsArg(t.args[i], i + 1 == |t.args|)
      {
        MadeArgsAt(t.args, i);
        MadeArgIff(t.args[i], i + 1 == |t.args|);
      }
    }
  }

  /** A list of 1 and 2^32 + 5 becomes the list of 1 and 5. */
  lemma WrongElement()
    ensures Made(List(Int(1), List(Int(0x1_0000_0005), Nil))) == List(Int(1), List(Int(5), Nil))
  {
    assert Narrow(0x1_0000_0005) == 5;
  }

  // ---------------------------------------------------------------- a cell holds one term

  ghost predicate Apart(env: Env) {
    forall v, w :: v in env && w in env && v != w ==> env[v] != env[w]
  }

  /** A cell holds at most one term, once nothing is missing. */
  lemma {:induction false} HoldsOne(h: Heap, c: Cell, t: Term, u: Term, env: Env)
    requires Holds(h, c, t, env, map[]) && Holds(h, c, u, env, map[]) && Apart(env)
    ensures t == u
    decreases t
  {
    var d := Deref(h, c);
    match t
    case List(car, cdr) =>
      HoldsOne(h, h[d.a], car, u.car, env);
      HoldsOne(h, h[d.a + 1], cdr, u.cdr, env);
    case Str(f, args) =>
      forall i | 0 <= i < |args|
        ensures args[i] == u.args[i]
      {
        HoldsOne(h, h[d.a + 1 + i], args[i], u.args[i], env);
      }
    case _ =>
  }

  // ---------------------------------------------------------------- the order of structures

  // The structures that code builds, each by its instruction.
  datatype Head = ListHead | StrHead(f: int, arity: nat)

  function HeadOf(t: Term): Head
    requires Compound(t)
  {
    if t.List? then ListHead else StrHead(t.f, |t.args|)
  }

  function HeadsOf(i: Instr): seq<Head> {
    match i
    case PutStr(_, f, n) => [StrHead(f, n)]
    case PutList(_) => [ListHead]
    case GetStr(_, f, n) => [StrHead(f, n)]
    case GetList(_) => [ListHead]
    case _ => []
  }

  function Heads(code: seq<Instr>): seq<Head> {
    if code == [] then [] else Heads(code[..|code| - 1]) + HeadsOf(code[|code| - 1])
  }

  lemma HeadsOne(code: seq<Instr>, i: Instr)
    ensures Heads(code + [i]) == Heads(code) + HeadsOf(i)
  {
    assert (code + [i])[..|code|] == code;
  }

  /** The structures of an argument, each before its own, from left to right, but for lists in the short form. */
  function OrderArg(t: Term, isLast: bool): seq<Head>
    decreases t, 1
  {
    if !Compound(t) then [] else if isLast && Short(t) then OrderArg(t.cdr, true) else Order(t)
  }

  function Order(t: Term): seq<Head>
    requires Compound(t)
    decreases t, 0
  {
    [HeadOf(t)] + if t.List? then OrderArg(t.car, false) + OrderArg(t.cdr, true) else OrderArgs(t.args)
  }

  function OrderArgs(ts: seq<Term>): seq<Head>
    decreases ts
  {
    if ts == [] then [] else OrderArg(ts[0], |ts| == 1) + OrderArgs(ts[1..])
  }

  lemma ArgCases(t: Term, isLast: bool)
    ensures (Compound(t) <==> t.List? || t.Str?) && (Short(t) ==> t.List? && t.car.Int?)
    ensures !Compound(t) ==> MadeArg(t, isLast) == t && OrderArg(t, isLast) == []
    ensures isLast && Short(t) ==>
              MadeArg(t, isLast) == List(Int(Narrow(t.car.n)), MadeArg(t.cdr, true)) &&
              OrderArg(t, isLast) == OrderArg(t.cdr, true)
    ensures Compound(t) && !(isLast && Short(t)) ==>
              MadeArg(t, isLast) == Made(t) && OrderArg(t, isLast) == OrderArg(t, false)
  {
  }

  lemma OrderFirst(t: Term, ts: seq<Term>)
    ensures OrderArgs([t] + ts) == OrderArg(t, ts == []) + OrderArgs(ts)
  {
    assert ([t] + ts)[1..] == ts;
  }

  lemma OrderOfArgs(t: Term)
    requires Compound(t)
    ensures Order(t) == [HeadOf(t)] + OrderArgs(Args(t))
  {
    if t.List? {
      OrderFirst(t.car, [t.cdr]);
      OrderFirst(t.cdr, []);
      assert [t.car] + [t.cdr] == [t.car, t.cdr] && [t.cdr] + [] == [t.cdr];
    }
  }
}
