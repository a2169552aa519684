/** Resuming completion suspensions: when a set of subgoals completes, the suspensions waiting on them are taken out
    of the subgoals' own chains and spliced into one chain of choice points. */
module Suspensions {

  // A link of a suspension chain: its end, a suspension, or the choice point below the resumed suspensions.
  datatype Link = Null | At(csf: Csf) | Breg

  class Subgoal {
    const completed: bool
    // The suspensions waiting on the subgoal.
    var susp: Link

    constructor (completed: bool)
      ensures this.completed == completed && susp == Null
    {
      this.completed, susp := completed, Null;
    }
  }

  /** A suspension, made on behalf of the root subgoal. */
  class Csf {
    const root: Subgoal
    var prev: Link
    var hreg: int
    var ebreg: int

    constructor (root: Subgoal)
      ensures this.root == root && prev == Null
    {
      this.root, prev, hreg, ebreg := root, Null, 0, 0;
    }
  }

  // ---------------------------------------------------------------- chains

  /** The suspensions `s`, in order, lead from the link `from` to the link `to`. */
  ghost predicate Leads(from: Link, s: seq<Csf>, to: Link)
    reads s`prev
    decreases |s|
  {
    if s == [] then from == to else from == At(s[0]) && Leads(s[0].prev, s[1..], to)
  }

  ghost predicate Distinct(s: seq<Csf>) {
    forall i, j :: 0 <= i < j < |s| ==> s[i] != s[j]
  }

  /** The suspensions whose root subgoal has not been completed early. */
  function Open(s: seq<Csf>): seq<Csf> {
    if s == [] then [] else if s[0].root.completed then Open(s[1..]) else [s[0]] + Open(s[1..])
  }

  lemma {:induction false} OpenConcat(a: seq<Csf>, b: seq<Csf>)
    ensures Open(a + b) == Open(a) + Open(b)
  {
    if a == [] {
      assert a + b == b;
    } else {
      assert (a + b)[0] == a[0] && (a + b)[1..] == a[1..] + b;
      OpenConcat(a[1..], b);
    }
  }

  lemma {:induction false} OpenIn(s: seq<Csf>)
    ensures forall x :: x in Open(s) ==> x in s
    ensures Distinct(s) ==> Distinct(Open(s))
  {
    if s != [] {
      assert s == [s[0]] + s[1..];
      assert forall x :: x in s[1..] ==> x in s;
      OpenIn(s[1..]);
      if Distinct(s) { assert Distinct(s[1..]) && s[0] !in s[1..]; }
    }
  }

  lemma {:induction false} LeadsConcat(from: Link, a: seq<Csf>, b: seq<Csf>, mid: Link, to: Link)
    requires Leads(from, a, mid) && Leads(mid, b, to)
    ensures Leads(from, a + b, to)
    decreases |a|
  {
    if a == [] {
      assert a + b == b;
    } else {
      assert (a + b)[0] == a[0] && (a + b)[1..] == a[1..] + b;
      LeadsConcat(a[0].prev, a[1..], b, mid, to);
    }
  }

  lemma {:induction false} LeadsLast(from: Link, s: seq<Csf>, to: Link)
    requires s != [] && Leads(from, s, to)
    ensures s[|s| - 1].prev == to && Leads(from, s[..|s| - 1], At(s[|s| - 1])) && from == At(s[0])
    decreases |s|
  {
    if |s| > 1 {
      LeadsLast(s[0].prev, s[1..], to);
      assert s[1..][..|s| - 2] == s[..|s| - 1][1..];
    } else {
      assert s[..0] == [];
    }
  }

  lemma {:induction false} LeadsEnd(from: Link, s: seq<Csf>, c: Csf, to: Link)
    requires Leads(from, s, At(c)) && c.prev == to
    ensures Leads(from, s + [c], to)
  {
    assert Leads(to, [], to) && [c][1..] == [];
    assert Leads(At(c), [c], to);
    LeadsConcat(from, s, [c], At(c), to);
  }

  lemma LeadsFirst(from: Link, s: seq<Csf>, i: int)
    requires 0 <= i <= |s| && Leads(from, s[i..], Null) && from != Null
    ensures i < |s| && from == At(s[i]) && Leads(s[i].prev, s[i + 1..], Null)
  {
    if i < |s| { assert s[i..][1..] == s[i + 1..]; }
  }

  /** The next suspension stays in the chain or goes; those that stay are none of the later ones. */
  lemma OpenNext(s: seq<Csf>, i: int)
    requires 0 <= i < |s| && Distinct(s)
    ensures Open(s[..i + 1]) == if s[i].root.completed then Open(s[..i]) else Open(s[..i]) + [s[i]]
    ensures Distinct(Open(s[..i])) && forall x :: x in Open(s[..i]) ==> x in s && x != s[i] && x !in s[i + 1..]
  {
    var c := s[i];
    assert s[..i + 1] == s[..i] + [c] && [c][1..] == [];
    OpenConcat(s[..i], [c]);
    OpenIn(s[..i]);
    assert Open(s[..i]) + [] == Open(s[..i]) && Open([c]) == if c.root.completed then [] else [c];
  }

  // ---------------------------------------------------------------- filtering one chain

  /** Makes the last suspension of a chain refer elsewhere. */
  method Redirect(last: Csf, to: Link, ghost from: Link, ghost s: seq<Csf>, ghost was: Link)
    requires s != [] && last == s[|s| - 1] && Distinct(s) && Leads(from, s, was)
    modifies last`prev
    ensures Leads(from, s, to) && last.prev == to
  {
    LeadsLast(from, s, was);
    last.prev := to;
    assert last !in s[..|s| - 1];
    assert s == s[..|s| - 1] + [last];
    LeadsEnd(from, s[..|s| - 1], last, to);
  }

  /** Takes the suspensions with completed roots out of the subgoal's chain `s`. */
  method FilterChain(g: Subgoal, ghost s: seq<Csf>)
    requires Leads(g.susp, s, Null) && Distinct(s)
    modifies g`susp, s`prev
    ensures Leads(g.susp, Open(s), Null)
  {
    hide Leads, Open, Distinct;
    var nsf, prevNsf := g.susp, Null;
    ghost var i := 0;
    StartChain(nsf, s);
    while nsf != Null
      invariant 0 <= i <= |s| && Leads(g.susp, Open(s[..i]), nsf) && Leads(nsf, s[i..], Null)
      invariant prevNsf == if Open(s[..i]) == [] then Null else At(Open(s[..i])[|Open(s[..i])| - 1])
      decreases |s| - i
    {
      LeadsFirst(nsf, s, i);
      var c := nsf.csf;
      ghost var kept := Open(s[..i]);
      OpenNext(s, i);
      if c.root.completed {
        if prevNsf == Null {
          g.susp := c.prev;
          nsf := g.susp;
          EmptyLeads(nsf);
        } else {
          assert prevNsf.csf in kept;
          Redirect(prevNsf.csf, c.prev, g.susp, kept, nsf);
          nsf := prevNsf.csf.prev;
        }
      } else {
        LeadsEnd(g.susp, kept, c, c.prev);
        prevNsf := nsf;
        nsf := c.prev;
      }
      i := i + 1;
    }
    ChainDone(nsf, s, i);
  }

  lemma StartChain(from: Link, s: seq<Csf>)
    ensures s[0..] == s && Open(s[..0]) == [] && Leads(from, [], from)
  {
  }

  lemma EmptyLeads(from: Link)
    ensures Leads(from, [], from)
  {
  }

  lemma ChainDone(to: Link, s: seq<Csf>, i: int)
    requires 0 <= i <= |s| && Leads(Null, s[i..], Null)
    ensures i == |s| && s[..i] == s
  {
  }

  // ---------------------------------------------------------------- splicing

  /** What is resumed of one subgoal's chain: nothing if the subgoal itself has been completed early. */
  function Resumed(g: Subgoal, s: seq<Csf>): seq<Csf> {
    if g.completed then [] else Open(s)
  }

  function AllResumed(gs: seq<Subgoal>, cs: seq<seq<Csf>>): seq<Csf>
    requires |gs| == |cs|
  {
    if gs == [] then [] else
      var n := |gs| - 1;
      AllResumed(gs[..n], cs[..n]) + Resumed(gs[n], cs[n])
  }

  /** Gives all suspensions of the chain `s` the current stack tops, and finds the last of them. */
  method Refresh(nsf: Csf, hreg: int, ebreg: int, ghost s: seq<Csf>) returns (c: Csf)
    requires s != [] && Leads(At(nsf), s, Null) && Distinct(s)
    modifies s`hreg, s`ebreg
    ensures c == s[|s| - 1] && forall x :: x in s ==> x.hreg == hreg && x.ebreg == ebreg
  {
    c := nsf;
    ghost var i := 0;
    assert s[0..] == s;
    while c.prev != Null
      invariant 0 <= i < |s| && c == s[i] && Leads(At(c), s[i..], Null)
      invariant forall j :: 0 <= j < i ==> s[j].hreg == hreg && s[j].ebreg == ebreg
      decreases |s| - i
    {
      c.hreg, c.ebreg := hreg, ebreg;
      assert s[i..][1..] == s[i + 1..];
      c := c.prev.csf;
      i := i + 1;
    }
    c.hreg, c.ebreg := hreg, ebreg;
    assert s[i..][1..] == s[i + 1..];
    assert i == |s| - 1;
  }

  /** Resumes the suspensions `s`, a chain that starts at `nsf`: they are put at the end of the chain `acc` that
      starts at `head`, and get the current stack tops. */
  method ResumeCsfs(nsf: Csf, head0: Link, tail0: Link, hreg: int, ebreg: int, ghost acc: seq<Csf>, ghost s: seq<Csf>)
    returns (head: Link, tail: Link)
    requires s != [] && Leads(At(nsf), s, Null) && Distinct(acc + s)
    requires if acc == [] then tail0 == Null else tail0 == At(acc[|acc| - 1]) && Leads(head0, acc, Breg)
    modifies acc`prev, s`prev, s`hreg, s`ebreg
    ensures Leads(head, acc + s, Breg) && tail == At(s[|s| - 1])
    ensures acc != [] ==> head == head0
    ensures forall x :: x in s ==> x.hreg == hreg && x.ebreg == ebreg
  {
    Apart(acc, s);
    if tail0 == Null {
      head := At(nsf);
    } else {
      head := head0;
      assert acc[|acc| - 1] in acc;
      Redirect(tail0.csf, At(nsf), head0, acc, Breg);
    }
    assert Leads(At(nsf), s, Null);
    var c := Refresh(nsf, hreg, ebreg, s);
    assert acc != [] ==> Leads(head, acc, At(nsf));
    assert c in s;
    Redirect(c, Breg, At(nsf), s, Null);
    tail := At(c);
    if acc != [] {
      assert Leads(head, acc, At(nsf));
      LeadsConcat(head, acc, s, At(nsf), Breg);
    } else {
      assert acc + s == s;
    }
  }

  lemma Apart(a: seq<Csf>, b: seq<Csf>)
    requires Distinct(a + b)
    ensures (forall x :: x in a ==> x !in b) && Distinct(a) && Distinct(b)
  {
    forall i, j | 0 <= i < |a| && 0 <= j < |b|
      ensures a[i] != b[j]
    {
      assert (a + b)[i] == a[i] && (a + b)[|a| + j] == b[j];
    }
    assert forall i :: 0 <= i < |b| ==> (a + b)[|a| + i] == b[i];
    assert forall i :: 0 <= i < |a| ==> (a + b)[i] == a[i];
  }

  // ---------------------------------------------------------------- all subgoals

  /** The chain resumed so far; nothing has been resumed when it is empty. */
  ghost predicate Spliced(head: Link, tail: Link, acc: seq<Csf>, start: Link)
    reads acc`prev
  {
    if acc == [] then tail == Null && head == start else tail == At(acc[|acc| - 1]) && Leads(head, acc, Breg)
  }

  lemma OpenApart(acc: seq<Csf>, s: seq<Csf>)
    requires Distinct(acc) && Distinct(s) && forall x :: x in acc ==> x !in s
    ensures Distinct(acc + Open(s))
  {
    OpenIn(s);
    var o := Open(s);
    forall i, j | 0 <= i < j < |acc + o|
      ensures (acc + o)[i] != (acc + o)[j]
    {
      if i < |acc| <= j { assert (acc + o)[i] in acc && (acc + o)[j] in o; }
    }
  }

  lemma NothingResumed(acc: seq<Csf>, g: Subgoal, s: seq<Csf>)
    requires Leads(g.susp, s, Null)
    ensures acc + [] == acc && (g.susp == Null ==> Open(s) == [])
  {
  }

  lemma LeadsNothing(from: Link, s: seq<Csf>)
    requires Leads(from, s, Null)
    ensures from == if s == [] then Null else At(s[0])
  {
  }

  /** Deals with one subgoal of the completion stack. */
  method ProcessSubgoal(g: Subgoal, head0: Link, tail0: Link, hreg: int, ebreg: int, ghost acc: seq<Csf>,
                        ghost s: seq<Csf>, ghost start: Link)
    returns (head: Link, tail: Link)
    requires Leads(g.susp, s, Null) && Distinct(s) && Distinct(acc) && (forall x :: x in acc ==> x !in s)
    requires Spliced(head0, tail0, acc, start)
    modifies g`susp, acc`prev, s`prev, s`hreg, s`ebreg
    ensures g.susp == Null && Spliced(head, tail, acc + Resumed(g, s), start)
    ensures forall x :: x in Resumed(g, s) ==> x.hreg == hreg && x.ebreg == ebreg
  {
    hide Leads, Distinct, Open;
    head, tail := head0, tail0;
    OpenApart(acc, s);
    OpenIn(s);
    NothingResumed(acc, g, s);
    if g.completed {
      g.susp := Null;
    } else if g.susp != Null {
      FilterChain(g, s);
      assert forall x :: x in acc ==> x.prev == old(x.prev);
      assert acc != [] ==> Leads(head, acc, Breg);
      LeadsNothing(g.susp, Open(s));
      assert forall j :: 0 <= j < |Open(s)| ==> Open(s)[j] in s;
      if g.susp != Null {
        head, tail := ResumeCsfs(g.susp.csf, head, tail, hreg, ebreg, acc, Open(s));
        g.susp := Null;
      }
    }
  }

  lemma ResumedIn(g: Subgoal, s: seq<Csf>)
    ensures forall x :: x in Resumed(g, s) ==> x in s
  {
    OpenIn(s);
  }

  ghost function AllCsfs(cs: seq<seq<Csf>>): set<Csf> {
    set i, x | 0 <= i < |cs| && x in cs[i] :: x
  }

  ghost predicate Disjoint(cs: seq<seq<Csf>>) {
    && (forall i :: 0 <= i < |cs| ==> Distinct(cs[i]))
    && (forall i, j, x :: 0 <= i < j < |cs| && x in cs[i] ==> x !in cs[j])
  }

  /** The suspensions resumed are those of the subgoals passed, and are different. */
  lemma {:induction false} AllResumedIn(gs: seq<Subgoal>, cs: seq<seq<Csf>>)
    requires |gs| == |cs| && Disjoint(cs)
    ensures forall x :: x in AllResumed(gs, cs) ==> exists i :: 0 <= i < |cs| && x in cs[i]
    ensures Distinct(AllResumed(gs, cs))
    decreases |gs|
  {
    if gs != [] {
      var n := |gs| - 1;
      AllResumedIn(gs[..n], cs[..n]);
      ResumedIn(gs[n], cs[n]);
      OpenIn(cs[n]);
      var a, r := AllResumed(gs[..n], cs[..n]), Resumed(gs[n], cs[n]);
      forall x | x in a
        ensures (exists i :: 0 <= i < |cs| && x in cs[i]) && x !in cs[n]
      {
        var i :| 0 <= i < n && x in cs[..n][i];
        assert x in cs[i];
      }
      forall i, j | 0 <= i < j < |a + r|
        ensures (a + r)[i] != (a + r)[j]
      {
        if i < |a| <= j { assert (a + r)[i] in a && (a + r)[j] in r; }
      }
    }
  }

  lemma AllCsfsAt(cs: seq<seq<Csf>>, i: int, x: Csf)
    requires 0 <= i < |cs|
    ensures x in AllCsfs(cs[i + 1..]) ==> exists j :: i < j < |cs| && x in cs[j]
    ensures x in AllCsfs(cs[i..]) ==> x in AllCsfs(cs)
  {
    if x in AllCsfs(cs[i + 1..]) {
      var j :| 0 <= j < |cs[i + 1..]| && x in cs[i + 1..][j];
      assert x in cs[i + 1 + j];
    }
    if x in AllCsfs(cs[i..]) {
      var j :| 0 <= j < |cs[i..]| && x in cs[i..][j];
      assert x in cs[i + j];
    }
  }

  lemma NextApart(gs: seq<Subgoal>, cs: seq<seq<Csf>>, i: int)
    requires |gs| == |cs| && Disjoint(cs) && 0 <= i < |gs|
    ensures var acc := AllResumed(gs[..i], cs[..i]);
            && Distinct(acc) && Distinct(cs[i])
            && (forall x :: x in acc ==> x in AllCsfs(cs) && x !in cs[i] && x !in AllCsfs(cs[i + 1..]))
            && (forall x :: x in cs[i] ==> x in AllCsfs(cs) && x !in AllCsfs(cs[i + 1..]))
            && AllResumed(gs[..i + 1], cs[..i + 1]) == acc + Resumed(gs[i], cs[i])
  {
    AllResumedIn(gs[..i], cs[..i]);
    forall x | x in AllResumed(gs[..i], cs[..i])
      ensures x in AllCsfs(cs) && x !in cs[i] && x !in AllCsfs(cs[i + 1..])
    {
      var k :| 0 <= k < i && x in cs[..i][k];
      assert x in cs[k];
      AllCsfsAt(cs, i, x);
    }
    forall x | x in cs[i]
      ensures x in AllCsfs(cs) && x !in AllCsfs(cs[i + 1..])
    {
      AllCsfsAt(cs, i, x);
    }
    assert gs[..i + 1][..i] == gs[..i] && cs[..i + 1][..i] == cs[..i];
  }

  /** The chains of the subgoals, which have nothing in common. */
  ghost predicate Waiting(gs: seq<Subgoal>, cs: seq<seq<Csf>>)
    requires |gs| == |cs|
    reads gs`susp, AllCsfs(cs)`prev
  {
    forall i :: 0 <= i < |gs| ==>
      assert forall x :: x in cs[i] ==> x in AllCsfs(cs);
      Leads(gs[i].susp, cs[i], Null)
  }

  lemma WaitingRest(gs: seq<Subgoal>, cs: seq<seq<Csf>>)
    requires |gs| == |cs| && gs != [] && Waiting(gs, cs)
    ensures Leads(gs[0].susp, cs[0], Null) && Waiting(gs[1..], cs[1..])
  {
    forall i | 0 <= i < |gs[1..]|
      ensures Leads(gs[1..][i].susp, cs[1..][i], Null)
    {
      assert gs[1..][i] == gs[i + 1] && cs[1..][i] == cs[i + 1];
    }
  }

  ghost predicate Fresh(s: seq<Csf>, hreg: int, ebreg: int)
    reads s`hreg, s`ebreg
  {
    forall x :: x in s ==> x.hreg == hreg && x.ebreg == ebreg
  }

  ghost predicate Emptied(gs: seq<Subgoal>)
    reads gs`susp
  {
    forall g :: g in gs ==> g.susp == Null
  }

  /** Deals with the next subgoal; `gs` and `cs` are the subgoals left and their chains. */
  method ProcessNext(g: Subgoal, head0: Link, tail0: Link, hreg: int, ebreg: int, ghost done: seq<Subgoal>,
                     ghost acc: seq<Csf>, ghost gs: seq<Subgoal>, ghost cs: seq<seq<Csf>>, ghost start: Link)
    returns (head: Link, tail: Link)
    requires |gs| == |cs| && gs != [] && gs[0] == g && g !in gs[1..] && g !in done && Waiting(gs, cs)
    requires Distinct(cs[0]) && Distinct(acc) && (forall x :: x in acc ==> x !in cs[0])
    requires forall x :: x in acc || x in cs[0] ==> x !in AllCsfs(cs[1..])
    requires Emptied(done) && Spliced(head0, tail0, acc, start) && Fresh(acc, hreg, ebreg)
    modifies g`susp, acc`prev, cs[0]`prev, cs[0]`hreg, cs[0]`ebreg
    ensures Waiting(gs[1..], cs[1..]) && Emptied(done + [g])
    ensures Spliced(head, tail, acc + Resumed(g, cs[0]), start) && Fresh(acc + Resumed(g, cs[0]), hreg, ebreg)
  {
    hide Leads, Resumed, Spliced;
    WaitingRest(gs, cs);
    ResumedIn(g, cs[0]);
    head, tail := ProcessSubgoal(g, head0, tail0, hreg, ebreg, acc, cs[0], start);
    forall x | x in AllCsfs(cs[1..])
      ensures x.prev == old(x.prev)
    {
      assert x !in acc && x !in cs[0];
    }
    assert forall h :: h in gs[1..] ==> h.susp == old(h.susp);
    forall i | 0 <= i < |gs[1..]|
      ensures Leads(gs[1..][i].susp, cs[1..][i], Null)
    {
      assert old(Leads(gs[1..][i].susp, cs[1..][i], Null));
      assert forall x :: x in cs[1..][i] ==> x in AllCsfs(cs[1..]);
      assert forall x :: x in cs[1..][i] ==> x.prev == old(x.prev);
    }
  }

  lemma NextSplit(gs: seq<Subgoal>, cs: seq<seq<Csf>>, i: int)
    requires |gs| == |cs| && 0 <= i < |gs| && (forall i, j :: 0 <= i < j < |gs| ==> gs[i] != gs[j])
    ensures (forall x :: x in AllCsfs(cs[i..][1..]) ==> x in AllCsfs(cs[i + 1..]))
    ensures gs[i..][1..] == gs[i + 1..] && cs[i..][1..] == cs[i + 1..] && gs[i..][0] == gs[i] && cs[i..][0] == cs[i]
    ensures gs[i] !in gs[i + 1..] && gs[i] !in gs[..i] && gs[i] in gs && gs[..i + 1] == gs[..i] + [gs[i]]
    ensures forall x :: x in cs[i] ==> x in AllCsfs(cs)
  {
    assert cs[i..][1..] == cs[i + 1..];
  }

  /** Goes through the subgoals of the completion stack, from the leader to the youngest: the chain returned holds,
      in order and without loss, the suspensions of every subgoal not completed early, as far as their own root
      subgoals have not been; it ends at the current choice point, and the subgoals' own chains are empty. */
  method ProcessSuspensionFrames(gs: seq<Subgoal>, start: Link, hreg: int, ebreg: int, ghost cs: seq<seq<Csf>>)
    returns (head: Link)
    requires |gs| == |cs| && Disjoint(cs) && (forall i, j :: 0 <= i < j < |gs| ==> gs[i] != gs[j])
    requires Waiting(gs, cs)
    modifies gs`susp, AllCsfs(cs)`prev, AllCsfs(cs)`hreg, AllCsfs(cs)`ebreg
    ensures Emptied(gs) && Fresh(AllResumed(gs, cs), hreg, ebreg)
    ensures if AllResumed(gs, cs) == [] then head == start else Leads(head, AllResumed(gs, cs), Breg)
  {
    hide Leads, AllResumed, Resumed, Disjoint, Waiting, Spliced, AllCsfs, Fresh, Emptied;
    var tail := Null;
    head := start;
    var i := 0;
    NoneSpliced(gs, cs, start, hreg, ebreg);
    while i < |gs|
      invariant 0 <= i <= |gs| && Waiting(gs[i..], cs[i..]) && Emptied(gs[..i])
      invariant var acc := AllResumed(gs[..i], cs[..i]); Spliced(head, tail, acc, start) && Fresh(acc, hreg, ebreg)
    {
      NextApart(gs, cs, i);
      NextSplit(gs, cs, i);
      head, tail := ProcessNext(gs[i], head, tail, hreg, ebreg, gs[..i], AllResumed(gs[..i], cs[..i]), gs[i..],
                                cs[i..], start);
      i := i + 1;
    }
    assert gs[..i] == gs && cs[..i] == cs;
    SplicedEnds(head, tail, AllResumed(gs, cs), start);
  }

  lemma NoneSpliced(gs: seq<Subgoal>, cs: seq<seq<Csf>>, start: Link, hreg: int, ebreg: int)
    requires |gs| == |cs|
    ensures gs[0..] == gs && cs[0..] == cs && Emptied(gs[..0])
    ensures var acc := AllResumed(gs[..0], cs[..0]); Spliced(start, Null, acc, start) && Fresh(acc, hreg, ebreg)
  {
  }

  lemma SplicedEnds(head: Link, tail: Link, acc: seq<Csf>, start: Link)
    requires Spliced(head, tail, acc, start)
    ensures if acc == [] then head == start else Leads(head, acc, Breg)
  {
  }
}
