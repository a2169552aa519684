/** Deleting a clause while choice points may still refer to the chains it is in: a clause is only taken out of
    its chains when that leaves every choice point at an instruction on which backtracking can resume. */
module Reclaim {
  import opened Chains

  // A choice point at a dynamic clause; at a place inside a clause body or clause/2, from which the clause
  // cannot be told; or at something else.
  datatype ChoicePoint = Clause(elem: Elem) | Dangling | Foreign

  // ---------------------------------------------------------------- positions and what is left of a chain

  function Filter(s: seq<Elem>, gone: set<Elem>): seq<Elem> {
    if s == [] then [] else if s[0] in gone then Filter(s[1..], gone) else [s[0]] + Filter(s[1..], gone)
  }

  lemma {:induction false} FilterKeeps(s: seq<Elem>, gone: set<Elem>)
    ensures forall x :: x in Filter(s, gone) ==> x in s && x !in gone
    ensures forall x :: x in s && x !in gone ==> x in Filter(s, gone)
    ensures (forall x :: x in s ==> x !in gone) ==> Filter(s, gone) == s
  {
    if s != [] {
      FilterKeeps(s[1..], gone);
      assert s == [s[0]] + s[1..];
    }
  }

  lemma {:induction false} FilterTwice(s: seq<Elem>, gone: set<Elem>, more: set<Elem>)
    ensures Filter(Filter(s, gone), more) == Filter(s, gone + more)
  {
    if s != [] {
      FilterTwice(s[1..], gone, more);
      var f := Filter(s[1..], gone);
      assert ([s[0]] + f)[1..] == f;
    }
  }

  lemma {:induction false} DroppedIsFilter(s: seq<Elem>, i: int)
    requires 0 <= i < |s| && Distinct(s)
    ensures Dropped(s, i) == Filter(s, {s[i]})
  {
    if i == 0 {
      FilterKeeps(s[1..], {s[0]});
    } else {
      DroppedIsFilter(s[1..], i - 1);
      assert Dropped(s, i) == [s[0]] + Dropped(s[1..], i - 1);
    }
  }

  /** The chain from `x` on: the clauses still to be tried from a choice point at `x`. */
  function Tail(s: seq<Elem>, x: Elem): seq<Elem> {
    if s == [] || s[0] == x then s else Tail(s[1..], x)
  }

  lemma {:induction false} TailAt(s: seq<Elem>, i: int)
    requires 0 <= i < |s| && Distinct(s)
    ensures Tail(s, s[i]) == s[i..]
  {
    if i > 0 {
      TailAt(s[1..], i - 1);
    }
  }

  /** Not the first of the chain, so its instruction is a retry or a trust. */
  predicate Inside(s: seq<Elem>, x: Elem) {
    x in s && x != s[0]
  }

  lemma InsideOp(ch: Chain, x: Elem)
    requires ch.Valid() && x in ch.s
    ensures x.home == ch
    ensures Inside(ch.s, x) <==> x.op in {Retry, Trust}
  {
    var i :| 0 <= i < |ch.s| && ch.s[i] == x;
    assert LinkedAt(ch.s, ch, ch.kind, i);
  }

  /** Backtracking to a choice point: it moves on to the next element, or is given up after the last. */
  method Backtrack(ch: Chain, x: Elem) returns (n: Elem?)
    requires ch.Valid() && Inside(ch.s, x)
    ensures Tail(ch.s, x) == [x] + if n == null then [] else Tail(ch.s, n)
    ensures n != null ==> Inside(ch.s, n)
  {
    ghost var i :| 0 <= i < |ch.s| && ch.s[i] == x;
    assert LinkedAt(ch.s, ch, ch.kind, i);
    TailAt(ch.s, i);
    if x.op == Retry {
      n := x.next.elem;
      TailAt(ch.s, i + 1);
    } else {
      n := null;
    }
  }

  /** Exactly when a choice point at `x` survives the deletion of number `i`: it is not there, nor second in the
      chain while the first goes. */
  lemma SurvivesIff(s: seq<Elem>, i: int, x: Elem)
    requires 0 <= i < |s| && Distinct(s) && Inside(s, x)
    ensures Inside(Dropped(s, i), x) <==> x != s[i] && !(i == 0 && x == s[1])
  {
    var r := Dropped(s, i);
    var j :| 0 <= j < |s| && s[j] == x;
    if j != i {
      assert r[if j < i then j else j - 1] == x;
    }
  }

  /** And then what is left to try is what was left before, without the deleted clause. */
  lemma {:induction false} TailWithout(s: seq<Elem>, gone: set<Elem>, x: Elem)
    requires x in s && x !in gone
    ensures Tail(Filter(s, gone), x) == Filter(Tail(s, x), gone)
  {
    if s[0] != x {
      assert s == [s[0]] + s[1..];
      TailWithout(s[1..], gone, x);
      var f := Filter(s[1..], gone);
      assert ([s[0]] + f)[1..] == f;
    }
  }

  // ---------------------------------------------------------------- all chains of the database

  ghost predicate World(chains: set<Chain>)
    reads chains, AllElems(chains)
  {
    forall ch :: ch in chains ==>
      assert forall x :: x in ch.s ==> x in AllElems(chains);
      ch.Valid()
  }

  ghost function AllElems(chains: set<Chain>): set<Elem>
    reads chains
  {
    set ch, x | ch in chains && x in ch.s :: x
  }

  // The contents of the chains.
  ghost function Contents(chains: set<Chain>): map<Chain, seq<Elem>>
    reads chains
  {
    map ch | ch in chains :: ch.s
  }

  type Layout = map<Chain, seq<Elem>>

  /** The chains without the elements in `gone`. */
  ghost predicate Reduced(before: Layout, now: Layout, gone: set<Elem>) {
    now.Keys == before.Keys && forall ch :: ch in before ==> now[ch] == Filter(before[ch], gone)
  }

  ghost predicate Located(l: Layout, x: Elem) {
    exists ch :: ch in l && Inside(l[ch], x)
  }

  /** Every choice point at a clause is inside some chain. */
  ghost predicate Resumable(l: Layout, cps: seq<ChoicePoint>) {
    forall cp :: cp in cps && cp.Clause? ==> Located(l, cp.elem)
  }

  lemma ChainsApart(ch: Chain, other: Chain)
    requires ch.Valid() && other.Valid() && ch != other
    ensures forall x :: x in ch.s ==> x !in other.s
  {
    forall x | x in ch.s
      ensures x !in other.s
    {
      if x in other.s {
        InsideOp(ch, x);
        InsideOp(other, x);
      }
    }
  }

  lemma ReducedMore(before: Layout, now: Layout, gone: set<Elem>, ch: Chain, i: int)
    requires Reduced(before, now, gone) && ch in now && 0 <= i < |now[ch]| && Distinct(now[ch])
    requires forall c :: c in now && c != ch ==> now[ch][i] !in now[c]
    ensures Reduced(before, now[ch := Dropped(now[ch], i)], gone + {now[ch][i]})
  {
    var x := now[ch][i];
    forall c | c in before
      ensures (if c == ch then Dropped(now[ch], i) else now[c]) == Filter(before[c], gone + {x})
    {
      FilterTwice(before[c], gone, {x});
      if c == ch { DroppedIsFilter(now[ch], i); } else { FilterKeeps(now[c], {x}); }
    }
  }

  /** No choice point is in the way of taking number `i` out of the chain `s`. */
  ghost predicate Free(s: seq<Elem>, i: int, cps: seq<ChoicePoint>)
    requires 0 <= i < |s|
  {
    forall cp :: cp in cps && cp.Clause? ==> cp.elem != s[i] && !(i == 0 && |s| > 1 && cp.elem == s[1])
  }

  lemma ResumableAfter(l: Layout, cps: seq<ChoicePoint>, ch: Chain, i: int)
    requires Resumable(l, cps) && ch in l && 0 <= i < |l[ch]| && Distinct(l[ch]) && Free(l[ch], i, cps)
    ensures Resumable(l[ch := Dropped(l[ch], i)], cps)
  {
    var now := l[ch := Dropped(l[ch], i)];
    forall cp | cp in cps && cp.Clause?
      ensures Located(now, cp.elem)
    {
      var c :| c in l && Inside(l[c], cp.elem);
      if c == ch { SurvivesIff(l[ch], i, cp.elem); }
      assert Inside(now[c], cp.elem);
    }
  }

  /** Deletes an element of one of the chains. */
  method DeleteElem(e: Elem, ghost ch: Chain, ghost i: int, ghost chains: set<Chain>)
    requires World(chains) && ch in chains && 0 <= i < |ch.s| && ch.s[i] == e
    modifies ch`first, ch`last, ch`s, Others(ch.s, e)`op, Others(ch.s, e)`prev, Others(ch.s, e)`next
    ensures World(chains) && Contents(chains) == old(Contents(chains)[ch := Dropped(ch.s, i)])
  {
    hide Chain.Valid;
    forall other | other in chains && other != ch
      ensures forall x :: x in ch.s ==> x !in other.s
    {
      ChainsApart(ch, other);
    }
    Delete(e, ch, i);
  }

  // ---------------------------------------------------------------- marking

  ghost predicate Pinned(it: Item, cps: seq<ChoicePoint>) {
    exists cp :: cp in cps && cp.Clause? && cp.elem.item == it
  }

  ghost predicate AtBacktracking(cps: seq<ChoicePoint>)
    reads (set cp | cp in cps && cp.Clause? :: cp.elem)`op
  {
    forall cp :: cp in cps && cp.Clause? ==> cp.elem.op in {Retry, Trust}
  }

  /** Marks whatever choice points refer to, up to one that refers to `c` or to an unknown clause. */
  method MarkChoicePoints(c: Item, cps: seq<ChoicePoint>, ghost items: set<Item>) returns (found: bool)
    requires AtBacktracking(cps) && forall cp :: cp in cps && cp.Clause? ==> cp.elem.item in items
    requires forall it :: it in items ==> !it.marked
    modifies items`marked
    ensures found <==> Dangling in cps || Pinned(c, cps)
    ensures !found ==> forall it :: it in items ==> (it.marked <==> Pinned(it, cps))
    ensures forall it :: it in items && it.marked ==> Pinned(it, cps)
  {
    found := false;
    var i := 0;
    while i < |cps| && !found
      invariant 0 <= i <= |cps|
      invariant found <==> Dangling in cps[..i] || Pinned(c, cps[..i])
      invariant !found ==> forall it :: it in items ==> (it.marked <==> Pinned(it, cps[..i]))
      invariant forall it :: it in items && it.marked ==> Pinned(it, cps)
    {
      var cp := cps[i];
      assert cp in cps;
      if cp.Clause? && (cp.elem.op == Retry || cp.elem.op == Trust) {
        if cp.elem.item == c { found := true; } else { cp.elem.item.marked := true; }
      } else if cp == Dangling {
        found := true;
      }
      PinnedNext(cps, i, items + {c});
      i := i + 1;
    }
    assert cps[..|cps|] == cps;
    if found { PinnedEarlier(cps, i, c); }
  }

  lemma PinnedNext(cps: seq<ChoicePoint>, i: int, items: set<Item>)
    requires 0 <= i < |cps|
    ensures forall it :: it in items ==>
              (Pinned(it, cps[..i + 1]) <==> Pinned(it, cps[..i]) || (cps[i].Clause? && cps[i].elem.item == it))
    ensures Dangling in cps[..i + 1] <==> Dangling in cps[..i] || cps[i] == Dangling
  {
    assert cps[..i + 1] == cps[..i] + [cps[i]];
  }

  lemma PinnedEarlier(cps: seq<ChoicePoint>, i: int, it: Item)
    requires 0 <= i <= |cps|
    ensures Pinned(it, cps[..i]) ==> Pinned(it, cps)
    ensures Dangling in cps[..i] ==> Dangling in cps
  {
    assert cps == cps[..i] + cps[i..];
  }

  method UnmarkChoicePoints(cps: seq<ChoicePoint>, ghost items: set<Item>)
    requires AtBacktracking(cps) && forall cp :: cp in cps && cp.Clause? ==> cp.elem.item in items
    requires forall it :: it in items && it.marked ==> Pinned(it, cps)
    modifies items`marked
    ensures forall it :: it in items ==> !it.marked
  {
    var i := 0;
    while i < |cps|
      invariant 0 <= i <= |cps|
      invariant forall it :: it in items && it.marked ==> Pinned(it, cps[i..])
    {
      var cp := cps[i];
      assert cp in cps && cps[i..] == [cp] + cps[i + 1..];
      if cp.Clause? && (cp.elem.op == Retry || cp.elem.op == Trust) {
        cp.elem.item.marked := false;
      }
      i := i + 1;
    }
  }

  ghost predicate NextMarked(e: Elem)
    reads e, e.home, set x | x in e.home.s :: x.item
  {
    |e.home.s| > 1 && e.home.s[0] == e && e.home.s[1].item.marked
  }

  /** Whether deleting `e` would change the instruction of a marked element after it. */
  method NextIsMarked(e: Elem) returns (r: bool)
    requires e.home.Valid() && e in e.home.s
    ensures r <==> NextMarked(e)
  {
    ghost var i :| 0 <= i < |e.home.s| && e.home.s[i] == e;
    assert LinkedAt(e.home.s, e.home, e.home.kind, i);
    r := (e.op == Try || e.op == DynTry) && e.next.elem.item.marked;
  }

  // ---------------------------------------------------------------- deleting a clause

  /** The clause or block `c` has its elements in chains of their own. */
  ghost predicate Placed(c: Item, chains: set<Chain>)
    reads c`elems, c.elems`home, chains`s
  {
    && c.elems != []
    && (forall k :: 0 <= k < |c.elems| ==>
          c.elems[k].item == c && c.elems[k].home in chains && c.elems[k] in c.elems[k].home.s &&
          (k > 0 <==> c.elems[k].home.bucket))
    && (forall j, k :: 0 <= j < k < |c.elems| ==> c.elems[j].home != c.elems[k].home)
  }

  /** A choice point is at the element that follows `e`, the first of its chain. */
  ghost predicate Shielded(s: seq<Elem>, e: Elem, cps: seq<ChoicePoint>) {
    |s| > 1 && s[0] == e && Pinned(s[1].item, cps)
  }

  /** No choice point is in the way of deleting `c`. */
  ghost predicate CanGo(c: Item, cps: seq<ChoicePoint>)
    reads c`elems, c.elems`home, (set e | e in c.elems :: e.home)`s
  {
    Dangling !in cps && !Pinned(c, cps) && forall e :: e in c.elems ==> !Shielded(e.home.s, e, cps)
  }

  /** Whether none of the instructions that deleting `c` would change is that of a marked clause. */
  method SafeToDelete(c: Item, ghost chains: set<Chain>) returns (ok: bool)
    requires World(chains) && Placed(c, chains)
    ensures ok <==> !c.marked && forall e :: e in c.elems ==> !NextMarked(e)
  {
    if c.marked { return false; }
    var shielded := NextIsMarked(c.elems[0]);
    if shielded { return false; }
    var i := |c.elems| - 1;
    while i >= 1
      invariant 0 <= i < |c.elems|
      invariant !NextMarked(c.elems[0]) && forall e :: e in c.elems[i + 1..] ==> !NextMarked(e)
    {
      shielded := NextIsMarked(c.elems[i]);
      if shielded { return false; }
      assert c.elems[i..] == [c.elems[i]] + c.elems[i + 1..];
      i := i - 1;
    }
    assert c.elems == [c.elems[0]] + c.elems[1..];
    ok := true;
  }

  // The buckets of a block that are not empty.
  ghost function Filled(b: Block, l: Layout): set<Chain> {
    set ch | ch in l && ch.bucket && ch.block == b && l[ch] != []
  }

  ghost predicate Hosted(l: Layout, x: Elem) {
    exists ch :: ch in l && !ch.bucket && x in l[ch]
  }

  ghost predicate BlockRight(b: Block, l: Layout)
    reads b`nonempty
  {
    b.nonempty == |Filled(b, l)| && (b.nonempty > 0 ==> Hosted(l, b.own))
  }

  /** The blocks count their nonempty buckets, and those that have any are in a chain of blocks. */
  ghost predicate Blocks(blocks: set<Block>, l: Layout)
    reads blocks`nonempty
  {
    && (forall b :: b in blocks ==> BlockRight(b, l))
    && (forall b, b2 :: b in blocks && b2 in blocks && b.own == b2.own ==> b == b2)
    && (forall ch :: ch in l && ch.bucket ==> ch.block in blocks)
  }

  /** Of the blocks in a chain exactly those without clauses have been made to fail, but for those in `but`. */
  ghost predicate Flags(blocks: set<Block>, l: Layout, but: set<Block>)
    reads blocks`nonempty, blocks`failed
  {
    forall b :: b in blocks && b !in but && Hosted(l, b.own) ==> (b.failed <==> b.nonempty == 0)
  }

  // A block of which it is still to be decided whether it goes or fails.
  ghost function Pending(b: Block?): set<Block>
    reads b
  {
    if b == null then {} else
      var some: Block := b;
      if some.nonempty == 0 then {some} else {}
  }

  // The blocks made to fail, by their elements.
  ghost function Failing(blocks: set<Block>): set<Elem>
    reads blocks`failed
  {
    set b | b in blocks && b.failed :: b.own
  }

  /** No choice point is in a chain of blocks. */
  ghost predicate Quiet(l: Layout, blocks: set<Block>, cps: seq<ChoicePoint>) {
    forall ch, b, x :: ch in l && b in blocks && b.own in l[ch] && x in l[ch] ==> !Pinned(x.item, cps)
  }

  lemma FlagsFewer(before: Layout, now: Layout, gone: set<Elem>, blocks: set<Block>, but: set<Block>)
    requires Reduced(before, now, gone) && Flags(blocks, before, but)
    ensures Flags(blocks, now, but)
  {
    forall b | b in blocks && b !in but && Hosted(now, b.own)
      ensures b.failed <==> b.nonempty == 0
    {
      var ch :| ch in now && !ch.bucket && b.own in now[ch];
      FilterKeeps(before[ch], gone);
      assert b.own in before[ch];
    }
  }

  lemma QuietStill(before: Layout, now: Layout, gone: set<Elem>, blocks: set<Block>, cps: seq<ChoicePoint>)
    requires Reduced(before, now, gone) && Quiet(before, blocks, cps)
    ensures Quiet(now, blocks, cps)
  {
    forall ch, b, x | ch in now && b in blocks && b.own in now[ch] && x in now[ch]
      ensures !Pinned(x.item, cps)
    {
      FilterKeeps(before[ch], gone);
    }
  }

  lemma FreeIf(s: seq<Elem>, i: int, cps: seq<ChoicePoint>)
    requires 0 <= i < |s| && !Pinned(s[i].item, cps) && !Shielded(s, s[i], cps)
    ensures Free(s, i, cps)
  {
  }

  lemma ReducedTwice(a: Layout, b: Layout, c: Layout, gone: set<Elem>, more: set<Elem>)
    requires Reduced(a, b, gone) && Reduced(b, c, more)
    ensures Reduced(a, c, gone + more)
  {
    forall ch | ch in a
      ensures c[ch] == Filter(a[ch], gone + more)
    {
      FilterTwice(a[ch], gone, more);
    }
  }

  lemma NothingReduced(a: Layout)
    ensures Reduced(a, a, {})
  {
    forall ch | ch in a
      ensures Filter(a[ch], {}) == a[ch]
    {
      FilterKeeps(a[ch], {});
    }
  }

  /** The marks are those of the items that choice points refer to. */
  ghost predicate MarksRight(elems: set<Elem>, cps: seq<ChoicePoint>)
    reads set x | x in elems :: x.item`marked
  {
    forall x :: x in elems ==> (x.item.marked <==> Pinned(x.item, cps))
  }

  lemma FewerElems(before: Layout, chains: set<Chain>, gone: set<Elem>, elems: set<Elem>)
    requires Reduced(before, Contents(chains), gone)
    requires forall ch, x :: ch in before && x in before[ch] ==> x in elems
    ensures AllElems(chains) <= elems
  {
    forall ch, x | ch in chains && x in ch.s
      ensures x in elems
    {
      assert Contents(chains)[ch] == ch.s;
      FilterKeeps(before[ch], gone);
    }
  }

  /** An element is in one chain only, and there once. */
  lemma OnlyIn(chains: set<Chain>, ch: Chain, e: Elem)
    requires World(chains) && ch in chains && e in ch.s
    ensures Distinct(ch.s) && forall c :: c in Contents(chains) && c != ch ==> e !in Contents(chains)[c]
  {
    forall c | c in chains && c != ch
      ensures e !in c.s
    {
      ChainsApart(ch, c);
    }
  }

  lemma UnlinkFacts(chains: set<Chain>, ch: Chain, e: Elem, i: int, cps: seq<ChoicePoint>)
    requires World(chains) && Resumable(Contents(chains), cps) && ch in chains && 0 <= i < |ch.s| && ch.s[i] == e
    requires !Pinned(e.item, cps) && !Shielded(ch.s, e, cps)
    ensures var now := Contents(chains)[ch := Dropped(ch.s, i)];
            Reduced(Contents(chains), now, {e}) && Resumable(now, cps)
  {
    hide Chain.Valid, World, Reduced, Resumable, Inside;
    var l := Contents(chains);
    OnlyIn(chains, ch, e);
    FreeIf(ch.s, i, cps);
    NothingReduced(l);
    ReducedMore(l, l, {}, ch, i);
    assert {} + {e} == {e};
    ResumableAfter(l, cps, ch, i);
  }

  /** Takes `e` out of its chain `ch`, when nothing is in the way. */
  method Unlink(e: Elem, ghost ch: Chain, ghost chains: set<Chain>, ghost cps: seq<ChoicePoint>)
    requires World(chains) && Resumable(Contents(chains), cps) && ch in chains && e in ch.s
    requires !Pinned(e.item, cps) && !Shielded(ch.s, e, cps)
    modifies ch`first, ch`last, ch`s, Others(ch.s, e)`op, Others(ch.s, e)`prev, Others(ch.s, e)`next
    ensures World(chains) && Resumable(Contents(chains), cps)
    ensures Reduced(old(Contents(chains)), Contents(chains), {e})
    ensures forall c :: c in chains && c != ch ==> c.s == old(c.s)
    ensures AllElems(chains) <= old(AllElems(chains))
  {
    hide World, Resumable, Reduced, Pinned, Shielded;
    ghost var i :| 0 <= i < |ch.s| && ch.s[i] == e;
    ghost var elems, l := AllElems(chains), Contents(chains);
    UnlinkFacts(chains, ch, e, i, cps);
    assert forall c, x :: c in l && x in l[c] ==> x in elems;
    DeleteElem(e, ch, i, chains);
    FewerElems(l, chains, {e}, elems);
    SameContents(l, chains, ch, Dropped(l[ch], i));
  }

  lemma SameContents(l: Layout, chains: set<Chain>, ch: Chain, s: seq<Elem>)
    requires Contents(chains) == l[ch := s] && l.Keys == chains && ch in chains
    ensures forall c :: c in chains && c != ch ==> c.s == l[c]
  {
    forall c | c in chains && c != ch
      ensures c.s == l[c]
    {
      assert Contents(chains)[c] == c.s;
    }
  }

  lemma Unshielded(e: Elem, ch: Chain, chains: set<Chain>, elems: set<Elem>, cps: seq<ChoicePoint>)
    requires ch in chains && e in ch.s && AllElems(chains) <= elems && MarksRight(elems, cps)
    requires e.home == ch && !e.item.marked && !NextMarked(e)
    ensures !Pinned(e.item, cps) && !Shielded(ch.s, e, cps)
  {
    hide Pinned;
    assert e in AllElems(chains);
    if |ch.s| > 1 {
      assert ch.s[1] in ch.s;
      assert ch.s[1] in AllElems(chains);
    }
  }

  /** Taking the empty block `b` out of its chain leaves the others as they are. */
  lemma OtherBlocks(l: Layout, now: Layout, b: Block, blocks: set<Block>)
    requires Blocks(blocks, l) && Reduced(l, now, {b.own}) && b in blocks && b.nonempty == 0
    requires forall c :: c in l && c.bucket ==> now[c] == l[c]
    ensures Blocks(blocks, now)
  {
    forall b2 | b2 in blocks
      ensures BlockRight(b2, now)
    {
      assert BlockRight(b2, l) && Filled(b2, now) == Filled(b2, l);
      if b2.nonempty > 0 { StillHosted(l, now, {b.own}, b2.own); }
    }
  }

  lemma StillIn(before: Layout, now: Layout, gone: set<Elem>, ch: Chain, x: Elem)
    requires Reduced(before, now, gone) && ch in before && x in before[ch] && x !in gone
    ensures x in now[ch]
  {
    FilterKeeps(before[ch], gone);
  }

  lemma StillHosted(before: Layout, now: Layout, gone: set<Elem>, x: Elem)
    requires Reduced(before, now, gone) && Hosted(before, x) && x !in gone
    ensures Hosted(now, x)
  {
    var ch :| ch in before && !ch.bucket && x in before[ch];
    StillIn(before, now, gone, ch, x);
  }

  lemma HostOf(chains: set<Chain>, x: Elem)
    requires World(chains) && Hosted(Contents(chains), x)
    ensures x.home in chains && !x.home.bucket && x in x.home.s && x.home.Valid()
  {
    var ch :| ch in chains && !ch.bucket && x in Contents(chains)[ch];
    InsideOp(ch, x);
  }

  /** Whether no choice point is in the way of deleting the index block with the element `e`. */
  method BlockIsSafe(e: Elem, ghost chains: set<Chain>, ghost elems: set<Elem>, ghost cps: seq<ChoicePoint>)
    returns (ok: bool)
    requires World(chains) && AllElems(chains) <= elems && MarksRight(elems, cps) && Hosted(Contents(chains), e)
    ensures e.home in chains && !e.home.bucket && e in e.home.s
    ensures ok ==> !Pinned(e.item, cps) && !Shielded(e.home.s, e, cps)
    ensures ok <==> !e.item.marked && !NextMarked(e)
  {
    hide MarksRight, Pinned, Shielded, Contents, World, Chain.Valid;
    HostOf(chains, e);
    var shielded := NextIsMarked(e);
    ok := !e.item.marked && !shielded;
    if ok { Unshielded(e, e.home, chains, elems, cps); }
  }

  /** Deletes an index block that has become empty, or makes it fail when a choice point is in the way. */
  method RemoveBlock(b: Block, ghost chains: set<Chain>, ghost blocks: set<Block>, ghost elems: set<Elem>,
                     ghost cps: seq<ChoicePoint>)
    returns (ghost gone: set<Elem>)
    requires World(chains) && Resumable(Contents(chains), cps) && AllElems(chains) <= elems && MarksRight(elems, cps)
    requires Blocks(blocks, Contents(chains)) && b in blocks && b.nonempty == 0 && Hosted(Contents(chains), b.own)
    requires Flags(blocks, Contents(chains), {b})
    modifies b`failed, chains`first, chains`last, chains`s, elems`op, elems`prev, elems`next
    ensures World(chains) && Resumable(Contents(chains), cps) && AllElems(chains) <= elems
    ensures Blocks(blocks, Contents(chains))
    ensures gone == if old(b.own.item.marked || NextMarked(b.own)) then {} else {b.own}
    ensures gone == {} ==> b.failed
    ensures Flags(blocks, Contents(chains), {})
    ensures Quiet(old(Contents(chains)), blocks, cps) ==> b.failed == old(b.failed)
    ensures Reduced(old(Contents(chains)), Contents(chains), gone)
    ensures forall c :: c in chains && c.bucket ==> c.s == old(c.s)
  {
    hide Blocks, Reduced, Resumable, World, MarksRight, Pinned, Shielded, NextMarked, Hosted, Quiet, AllElems;
    ghost var l := Contents(chains);
    NothingReduced(l);
    QuietIsSafe(b, chains, blocks, elems, cps);
    var ok := BlockIsSafe(b.own, chains, elems, cps);
    if ok {
      assert Others(b.own.home.s, b.own) <= elems by { InElems(b.own.home, chains, elems); }
      Unlink(b.own, b.own.home, chains, cps);
      gone := {b.own};
      OtherBlocks(l, Contents(chains), b, blocks);
      FlagsFewer(l, Contents(chains), gone, blocks, {b});
      NotHosted(l, Contents(chains), b.own);
    } else {
      b.failed := true;
      gone := {};
    }
    FlagsAgain(blocks, Contents(chains), b);
  }

  lemma NotHosted(l: Layout, now: Layout, x: Elem)
    requires Reduced(l, now, {x})
    ensures !Hosted(now, x)
  {
    forall ch | ch in now
      ensures x !in now[ch]
    {
      FilterKeeps(l[ch], {x});
    }
  }

  lemma FlagsAgain(blocks: set<Block>, l: Layout, b: Block)
    requires Flags(blocks, l, {b}) && (Hosted(l, b.own) ==> (b.failed <==> b.nonempty == 0))
    ensures Flags(blocks, l, {})
  {
  }

  lemma QuietIsSafe(b: Block, chains: set<Chain>, blocks: set<Block>, elems: set<Elem>, cps: seq<ChoicePoint>)
    requires World(chains) && AllElems(chains) <= elems && MarksRight(elems, cps) && b in blocks
    requires Hosted(Contents(chains), b.own)
    ensures Quiet(Contents(chains), blocks, cps) ==> !b.own.item.marked && !NextMarked(b.own)
  {
    hide Pinned, World, Chain.Valid;
    HostOf(chains, b.own);
    InElems(b.own.home, chains, elems);
    assert Contents(chains)[b.own.home] == b.own.home.s;
  }

  lemma InElems(ch: Chain, chains: set<Chain>, elems: set<Elem>)
    requires ch in chains && AllElems(chains) <= elems
    ensures forall x :: x in ch.s ==> x in elems
  {
    forall x | x in ch.s
      ensures x in elems
    {
      assert x in AllElems(chains);
    }
  }

  lemma EntryOp(ch: Chain, e: Elem)
    requires ch.Valid() && ch.bucket && e in ch.s
    ensures e.home == ch && (e.op == DynNoop <==> Filter(ch.s, {e}) == [])
    ensures e.op == DynNoop ==> e.next == Owner(ch)
  {
    var i :| 0 <= i < |ch.s| && ch.s[i] == e;
    assert LinkedAt(ch.s, ch, ch.kind, i);
    DroppedIsFilter(ch.s, i);
  }

  lemma FilledWithout(l: Layout, now: Layout, ch: Chain, e: Elem, b: Block)
    requires Reduced(l, now, {e}) && ch in l && l[ch] != [] && forall c :: c in l && c != ch ==> now[c] == l[c]
    ensures Filled(b, now) == if ch.bucket && ch.block == b && now[ch] == [] then Filled(b, l) - {ch} else Filled(b, l)
    ensures ch.bucket && ch.block == b ==> ch in Filled(b, l)
  {
    FilterKeeps(l[ch], {e});
  }

  ghost predicate BlockSoon(b: Block, l: Layout, fewer: nat)
    reads b`nonempty
  {
    b.nonempty + fewer == |Filled(b, l)| && (b.nonempty + fewer > 0 ==> Hosted(l, b.own))
  }

  /** The counters after the entry `e` of the bucket `ch` has gone and that of its block been corrected. */
  lemma EntryBlocks(l: Layout, now: Layout, ch: Chain, e: Elem, blocks: set<Block>)
    requires Reduced(l, now, {e}) && ch in l && ch.bucket && l[ch] != []
    requires forall c :: c in l && c != ch ==> now[c] == l[c]
    requires forall b :: b in blocks ==> BlockSoon(b, l, if ch.block == b && now[ch] == [] then 1 else 0) && b.own != e
    requires forall b, b2 :: b in blocks && b2 in blocks && b.own == b2.own ==> b == b2
    requires forall c :: c in l && c.bucket ==> c.block in blocks
    ensures Blocks(blocks, now) && ch.block in blocks && Hosted(now, ch.block.own)
  {
    forall b | b in blocks
      ensures BlockRight(b, now)
    {
      FilledWithout(l, now, ch, e, b);
      if b.nonempty > 0 { StillHosted(l, now, {e}, b.own); }
    }
    var b := ch.block;
    FilledWithout(l, now, ch, e, b);
    StillHosted(l, now, {e}, b.own);
  }

  /** Counts the bucket `ch` out of its block if taking `e` out has emptied it. */
  method CountOut(e: Elem, ghost ch: Chain, ghost l: Layout, ghost now: Layout, ghost blocks: set<Block>)
    returns (b: Block?)
    requires Reduced(l, now, {e}) && ch in l && ch.bucket && l[ch] != []
    requires forall c :: c in l && c != ch ==> now[c] == l[c]
    requires Blocks(blocks, l) && Flags(blocks, l, {}) && forall b :: b in blocks ==> b.own != e
    requires (e.op == DynNoop <==> now[ch] == []) && (e.op == DynNoop ==> e.next == Owner(ch))
    modifies blocks`nonempty
    ensures Blocks(blocks, now)
    ensures b != null ==> b in blocks && Hosted(now, b.own)
    ensures Flags(blocks, now, Pending(b))
  {
    BlocksSoon(l, blocks, ch);
    b := null;
    assert !ch.block.failed;
    hide Hosted;
    if e.op == DynNoop {
      b := e.next.chain.block;
      b.nonempty := b.nonempty - 1;
    }
    assert Flags(blocks, l, Pending(b));
    FlagsFewer(l, now, {e}, blocks, Pending(b));
    EntryBlocks(l, now, ch, e, blocks);
  }

  lemma EntryFacts(l: Layout, chains: set<Chain>, e: Elem, ch: Chain)
    requires World(chains) && ch in chains && ch.bucket && e in ch.s && l == Contents(chains)
    ensures (e.op == DynNoop <==> Filter(l[ch], {e}) == []) && (e.op == DynNoop ==> e.next == Owner(ch))
  {
    EntryOp(ch, e);
  }

  /** Takes the entry `e` out of its hash bucket. */
  method UnlinkEntry(e: Elem, ghost ch: Chain, ghost chains: set<Chain>, ghost blocks: set<Block>,
                     ghost elems: set<Elem>, ghost cps: seq<ChoicePoint>)
    returns (b: Block?)
    requires World(chains) && Resumable(Contents(chains), cps) && AllElems(chains) <= elems
    requires Blocks(blocks, Contents(chains)) && ch in chains && ch.bucket && e in ch.s
    requires Flags(blocks, Contents(chains), {})
    requires !Pinned(e.item, cps) && !Shielded(ch.s, e, cps) && forall b :: b in blocks ==> b.own != e
    modifies ch`first, ch`last, ch`s, Others(ch.s, e)`op, Others(ch.s, e)`prev, Others(ch.s, e)`next, blocks`nonempty
    ensures World(chains) && Resumable(Contents(chains), cps) && AllElems(chains) <= elems
    ensures Blocks(blocks, Contents(chains)) && Reduced(old(Contents(chains)), Contents(chains), {e})
    ensures forall c :: c in chains && c != ch ==> c.s == old(c.s)
    ensures b != null ==> b in blocks && Hosted(Contents(chains), b.own)
    ensures Flags(blocks, Contents(chains), Pending(b))
  {
    hide Reduced, Resumable, World, Pinned, Shielded, AllElems, Blocks, Filter, Chain.Valid, Inside, Linked, Hosted,
        Flags;
    ghost var l := Contents(chains);
    EntryFacts(l, chains, e, ch);
    assert l[ch] != [];
    Unlink(e, ch, chains, cps);
    ghost var now := Contents(chains);
    ReducedAt(l, now, {e}, ch);
    b := CountOut(e, ch, l, now, blocks);
  }

  lemma ReducedAt(l: Layout, now: Layout, gone: set<Elem>, ch: Chain)
    requires Reduced(l, now, gone) && ch in l
    ensures ch in now && now[ch] == Filter(l[ch], gone)
  {
  }

  lemma BlocksSoon(l: Layout, blocks: set<Block>, ch: Chain)
    requires Blocks(blocks, l) && ch in l && ch.bucket && l[ch] != []
    ensures ch.block in blocks && ch.block.nonempty > 0 && Hosted(l, ch.block.own)
    ensures forall b :: b in blocks ==> BlockSoon(b, l, 0)
    ensures forall b, b2 :: b in blocks && b2 in blocks && b.own == b2.own ==> b == b2
    ensures forall c :: c in l && c.bucket ==> c.block in blocks
  {
    assert BlockRight(ch.block, l) && ch in Filled(ch.block, l);
    forall b | b in blocks
      ensures BlockSoon(b, l, 0)
    {
      assert BlockRight(b, l);
    }
  }

  /** Adding to the bucket `ch`, and counting it in if it was empty, keeps the counters right as well. */
  lemma AddedBlocks(l: Layout, now: Layout, ch: Chain, s: seq<Elem>, blocks: set<Block>)
    requires ch in l && ch.bucket && ch.block in blocks && Hosted(l, ch.block.own) && s != [] && now == l[ch := s]
    requires forall b :: b in blocks ==>
               (b.nonempty == |Filled(b, l)| + if ch.block == b && l[ch] == [] then 1 else 0) &&
               (b.nonempty > 0 ==> Hosted(l, b.own))
    requires forall b, b2 :: b in blocks && b2 in blocks && b.own == b2.own ==> b == b2
    requires forall c :: c in l && c.bucket ==> c.block in blocks
    ensures Blocks(blocks, now)
  {
    forall b | b in blocks
      ensures BlockRight(b, now)
    {
      var before := Filled(b, l);
      assert ch in before <==> ch.block == b && l[ch] != [];
      assert Filled(b, now) == if ch.block == b && l[ch] == [] then before + {ch} else before;
      if b.nonempty > 0 {
        var c :| c in l && !c.bucket && b.own in l[c];
        assert c in now && b.own in now[c];
      }
    }
  }

  /** Puts the new element `e` into the hash bucket `ch` of a block that is in use. */
  method AddEntry(e: Elem, ch: Chain, atFront: bool, ghost chains: set<Chain>, ghost blocks: set<Block>)
    requires World(chains) && ch in chains && ch.bucket && ch.block in blocks && e !in AllElems(chains)
    requires Blocks(blocks, Contents(chains)) && Hosted(Contents(chains), ch.block.own)
    modifies ch`first, ch`s, e, ch.s`op, ch.s`prev, ch.s`next, ch.block`nonempty
    ensures World(chains) && Blocks(blocks, Contents(chains))
    ensures Contents(chains) == old(Contents(chains)[ch := if atFront then [e] + ch.s else ch.s + [e]])
  {
    hide World, Hosted, AllElems, Chain.Valid;
    ghost var l := Contents(chains);
    LinkEntry(e, ch, atFront, chains);
    assert Contents(chains) == l[ch := ch.s];
    AddedBlocks(l, Contents(chains), ch, ch.s, blocks);
  }

  /** Puts `e` into the bucket; the other chains stay as they are. */
  method LinkEntry(e: Elem, ch: Chain, atFront: bool, ghost chains: set<Chain>)
    requires World(chains) && ch in chains && ch.bucket && ch.block != null && e !in AllElems(chains)
    modifies ch`first, ch`s, e, ch.s`op, ch.s`prev, ch.s`next, ch.block`nonempty
    ensures World(chains) && ch.s == if atFront then [e] + old(ch.s) else old(ch.s) + [e]
    ensures Contents(chains) == old(Contents(chains)[ch := if atFront then [e] + ch.s else ch.s + [e]])
    ensures ch.block.nonempty == old(ch.block.nonempty) + if old(ch.s) == [] then 1 else 0
  {
    hide Linked, Chain.Valid;
    assert e !in ch.s;
    ChainsApartFrom(ch, e, chains);
    ch.AddToBucket(e, atFront);
    forall other | other in chains && other != ch
      ensures other.Valid()
    {
      assert old(other.Valid()) && unchanged(other) && forall i :: 0 <= i < |other.s| ==> unchanged(other.s[i]);
    }
  }

  lemma ChainsApartFrom(ch: Chain, e: Elem, chains: set<Chain>)
    requires World(chains) && ch in chains && e !in AllElems(chains)
    ensures forall other, i :: other in chains && other != ch && 0 <= i < |other.s| ==> other.s[i] != e
    ensures forall other, i, j :: other in chains && other != ch && 0 <= i < |other.s| && 0 <= j < |ch.s| ==>
              other.s[i] != ch.s[j]
  {
    hide Chain.Valid;
    forall other, i | other in chains && other != ch && 0 <= i < |other.s|
      ensures other.s[i] != e && forall j :: 0 <= j < |ch.s| ==> other.s[i] != ch.s[j]
    {
      ChainsApart(ch, other);
      assert other.s[i] in other.s && other.s[i] in AllElems(chains);
    }
  }

  ghost function Owns(blocks: set<Block>): set<Elem> {
    set b | b in blocks :: b.own
  }

  /** Takes the entry `e` out of its hash bucket, and its index block out of its chain if no bucket is left. */
  method DeleteEntry(e: Elem, ghost ch: Chain, ghost chains: set<Chain>, ghost blocks: set<Block>,
                     ghost elems: set<Elem>, ghost cps: seq<ChoicePoint>)
    returns (ghost gone: set<Elem>)
    requires World(chains) && Resumable(Contents(chains), cps) && AllElems(chains) <= elems && MarksRight(elems, cps)
    requires Blocks(blocks, Contents(chains)) && ch in chains && ch.bucket && e in ch.s
    requires !Pinned(e.item, cps) && !Shielded(ch.s, e, cps) && forall b :: b in blocks ==> b.own != e
    requires Flags(blocks, Contents(chains), {})
    modifies chains`first, chains`last, chains`s, elems`op, elems`prev, elems`next, blocks`nonempty, blocks`failed
    ensures World(chains) && Resumable(Contents(chains), cps) && AllElems(chains) <= elems
    ensures Flags(blocks, Contents(chains), {})
    ensures Quiet(old(Contents(chains)), blocks, cps) ==> forall b :: b in blocks ==> b.failed == old(b.failed)
    ensures Blocks(blocks, Contents(chains)) && e in gone && gone <= {e} + Owns(blocks)
    ensures Reduced(old(Contents(chains)), Contents(chains), gone)
    ensures forall c :: c in chains && c.bucket && c != ch ==> c.s == old(c.s)
  {
    hide Blocks, Reduced, Resumable, World, MarksRight, Pinned, Shielded, NextMarked, Hosted, AllElems, Contents, Flags,
        Quiet;
    ghost var l := Contents(chains);
    assert Others(ch.s, e) <= elems by { InElems(ch, chains, elems); }
    var b := UnlinkEntry(e, ch, chains, blocks, elems, cps);
    gone := {e};
    if b != null && b.nonempty == 0 {
      ghost var mid := Contents(chains);
      if Quiet(l, blocks, cps) { QuietStill(l, mid, {e}, blocks, cps); }
      ghost var more := RemoveBlock(b, chains, blocks, elems, cps);
      ReducedTwice(l, mid, Contents(chains), gone, more);
      gone := gone + more;
    }
  }

  /** Taking an element out of a chain that is no hash bucket leaves the block counters right. */
  lemma PlainBlocks(l: Layout, now: Layout, e: Elem, blocks: set<Block>)
    requires Blocks(blocks, l) && Reduced(l, now, {e}) && forall b :: b in blocks ==> b.own != e
    requires forall c :: c in l && c.bucket ==> now[c] == l[c]
    ensures Blocks(blocks, now)
  {
    forall b | b in blocks
      ensures BlockRight(b, now)
    {
      assert BlockRight(b, l) && Filled(b, now) == Filled(b, l);
      if b.nonempty > 0 { StillHosted(l, now, {e}, b.own); }
    }
  }

  /** Takes `e` out of a chain that is no hash bucket. */
  method DeletePlain(e: Elem, ghost chains: set<Chain>, ghost blocks: set<Block>, ghost elems: set<Elem>,
                     ghost cps: seq<ChoicePoint>)
    requires World(chains) && Resumable(Contents(chains), cps) && AllElems(chains) <= elems
    requires Blocks(blocks, Contents(chains)) && e.home in chains && !e.home.bucket && e in e.home.s
    requires !Pinned(e.item, cps) && !Shielded(e.home.s, e, cps) && forall b :: b in blocks ==> b.own != e
    requires Flags(blocks, Contents(chains), {})
    modifies chains`first, chains`last, chains`s, elems`op, elems`prev, elems`next
    ensures Flags(blocks, Contents(chains), {})
    ensures World(chains) && Resumable(Contents(chains), cps) && AllElems(chains) <= elems
    ensures Blocks(blocks, Contents(chains)) && Reduced(old(Contents(chains)), Contents(chains), {e})
    ensures forall c :: c in chains && c.bucket ==> c.s == old(c.s)
  {
    hide Blocks, Reduced, Resumable, World, Pinned, Shielded, AllElems, Flags;
    ghost var l := Contents(chains);
    assert Others(e.home.s, e) <= elems by { InElems(e.home, chains, elems); }
    Unlink(e, e.home, chains, cps);
    PlainBlocks(l, Contents(chains), e, blocks);
    FlagsFewer(l, Contents(chains), {e}, blocks, {});
  }

  /** The clause's entries from number `k` on, and blocks that they leave empty, have gone. */
  ghost predicate EntriesGone(c: Item, k: int, gone: set<Elem>, blocks: set<Block>)
    requires 0 <= k <= |c.elems|
    reads c`elems
  {
    (forall e :: e in c.elems[k..] ==> e in gone) && forall e :: e in gone ==> e in c.elems || e in Owns(blocks)
  }

  /** Takes the clause `c` out of its hash buckets, the innermost index first. */
  method DeleteEntries(c: Item, ghost chains: set<Chain>, ghost blocks: set<Block>, ghost elems: set<Elem>,
                       ghost cps: seq<ChoicePoint>)
    returns (ghost gone: set<Elem>)
    requires World(chains) && Resumable(Contents(chains), cps) && AllElems(chains) <= elems && MarksRight(elems, cps)
    requires Blocks(blocks, Contents(chains)) && c.elems != []
    requires forall k ::
               1 <= k < |c.elems| ==> c.elems[k].item == c && c.elems[k].home in chains && c.elems[k].home.bucket
    requires forall k ::
               1 <= k < |c.elems| ==> c.elems[k] in c.elems[k].home.s && !Shielded(c.elems[k].home.s, c.elems[k], cps)
    requires forall j, k :: 1 <= j < k < |c.elems| ==> c.elems[j].home != c.elems[k].home
    requires !Pinned(c, cps) && forall b :: b in blocks ==> b.own.item != c
    requires Flags(blocks, Contents(chains), {})
    modifies chains`first, chains`last, chains`s, elems`op, elems`prev, elems`next, blocks`nonempty, blocks`failed
    ensures World(chains) && Resumable(Contents(chains), cps) && Blocks(blocks, Contents(chains)) &&
            AllElems(chains) <= elems && Flags(blocks, Contents(chains), {})
    ensures Quiet(old(Contents(chains)), blocks, cps) ==> forall b :: b in blocks ==> b.failed == old(b.failed)
    ensures EntriesGone(c, 1, gone, blocks) && Reduced(old(Contents(chains)), Contents(chains), gone)
  {
    hide Blocks, Reduced, Resumable, World, MarksRight, Pinned, Shielded, AllElems, Contents, EntriesGone, Flags, Quiet;
    ghost var l := Contents(chains);
    gone := {};
    NothingReduced(l);
    NoneGone(c, blocks);
    var i := |c.elems| - 1;
    while i >= 1
      invariant 0 <= i < |c.elems|
      invariant World(chains) && Resumable(Contents(chains), cps) && AllElems(chains) <= elems && MarksRight(elems, cps)
      invariant Blocks(blocks, Contents(chains)) && Reduced(l, Contents(chains), gone)
      invariant forall k :: 1 <= k <= i ==> c.elems[k].home.s == old(c.elems[k].home.s)
      invariant EntriesGone(c, i + 1, gone, blocks) && Flags(blocks, Contents(chains), {})
      invariant Quiet(l, blocks, cps) ==> forall b :: b in blocks ==> b.failed == old(b.failed)
    {
      ghost var mid := Contents(chains);
      if Quiet(l, blocks, cps) { QuietStill(l, mid, gone, blocks, cps); }
      ghost var more := DeleteEntry(c.elems[i], c.elems[i].home, chains, blocks, elems, cps);
      ReducedTwice(l, mid, Contents(chains), gone, more);
      MoreGone(c, i, gone, more, blocks);
      gone := gone + more;
      i := i - 1;
    }
  }

  lemma NoneGone(c: Item, blocks: set<Block>)
    ensures EntriesGone(c, |c.elems|, {}, blocks)
  {
  }

  lemma MoreGone(c: Item, i: int, gone: set<Elem>, more: set<Elem>, blocks: set<Block>)
    requires 0 <= i < |c.elems| && EntriesGone(c, i + 1, gone, blocks)
    requires c.elems[i] in more && more <= {c.elems[i]} + Owns(blocks)
    ensures EntriesGone(c, i, gone + more, blocks)
  {
    assert c.elems[i..] == [c.elems[i]] + c.elems[i + 1..];
  }

  /** Deletes the clause `c` from all its chains. */
  method ReallyDelete(c: Item, ghost chains: set<Chain>, ghost blocks: set<Block>, ghost elems: set<Elem>,
                      ghost cps: seq<ChoicePoint>)
    returns (ghost gone: set<Elem>)
    requires World(chains) && Resumable(Contents(chains), cps) && AllElems(chains) <= elems && MarksRight(elems, cps)
    requires Blocks(blocks, Contents(chains)) && Placed(c, chains)
    requires !Pinned(c, cps) && (forall e :: e in c.elems ==> !Shielded(e.home.s, e, cps))
    requires Flags(blocks, Contents(chains), {}) && forall b :: b in blocks ==> b.own.item != c
    modifies chains`first, chains`last, chains`s, elems`op, elems`prev, elems`next, blocks`nonempty, blocks`failed
    ensures World(chains) && Resumable(Contents(chains), cps) && Blocks(blocks, Contents(chains)) &&
            AllElems(chains) <= elems && Flags(blocks, Contents(chains), {})
    ensures Quiet(old(Contents(chains)), blocks, cps) ==> forall b :: b in blocks ==> b.failed == old(b.failed)
    ensures EntriesGone(c, 0, gone, blocks) && Reduced(old(Contents(chains)), Contents(chains), gone)
  {
    hide Blocks, Reduced, Resumable, World, MarksRight, Pinned, Shielded, AllElems, Contents, EntriesGone, Flags, Quiet;
    ghost var l := Contents(chains);
    var e := c.elems[0];
    DeletePlain(e, chains, blocks, elems, cps);
    ghost var mid := Contents(chains);
    if Quiet(l, blocks, cps) { QuietStill(l, mid, {e}, blocks, cps); }
    ghost var more := DeleteEntries(c, chains, blocks, elems, cps);
    ReducedTwice(l, mid, Contents(chains), {e}, more);
    gone := {e} + more;
    MoreGone(c, 0, more, {e}, blocks);
    assert more + {e} == gone;
  }

  /** What a choice point in the chain `s` still has to try is the same in the chain `now`, without `gone`. */
  ghost predicate Undisturbed(s: seq<Elem>, now: seq<Elem>, x: Elem, gone: set<Elem>) {
    Inside(now, x) && Tail(now, x) == Filter(Tail(s, x), gone)
  }

  /** Every choice point at a clause can still be resumed where it was. */
  ghost predicate AllUndisturbed(l: Layout, now: Layout, cps: seq<ChoicePoint>, gone: set<Elem>) {
    forall ch, cp :: ch in l && ch in now && cp in cps && cp.Clause? && Inside(l[ch], cp.elem) ==>
      Undisturbed(l[ch], now[ch], cp.elem, gone)
  }

  /** No element is in two chains. */
  ghost predicate Apart(l: Layout) {
    forall c, d, x :: c in l && d in l && x in l[c] && x in l[d] ==> c == d
  }

  lemma ResumeAfter(l: Layout, chains: set<Chain>, cps: seq<ChoicePoint>, gone: set<Elem>)
    requires World(chains) && Reduced(l, Contents(chains), gone) && Resumable(Contents(chains), cps) && Apart(l)
    ensures AllUndisturbed(l, Contents(chains), cps, gone)
  {
    hide World;
    var now := Contents(chains);
    forall ch, cp | ch in l && cp in cps && cp.Clause? && Inside(l[ch], cp.elem)
      ensures Undisturbed(l[ch], now[ch], cp.elem, gone)
    {
      var x := cp.elem;
      var d :| d in now && Inside(now[d], x);
      FilterKeeps(l[d], gone);
      assert x in l[d] && d == ch;
      TailWithout(l[ch], gone, x);
    }
  }

  lemma OneChainEach(chains: set<Chain>)
    requires World(chains)
    ensures Apart(Contents(chains))
  {
    hide Chain.Valid;
    forall c, d, x | c in chains && d in chains && x in Contents(chains)[c] && x in Contents(chains)[d]
      ensures c == d
    {
      if c != d { ChainsApart(c, d); }
    }
  }

  lemma CpsAtBacktracking(chains: set<Chain>, cps: seq<ChoicePoint>, elems: set<Elem>)
    requires World(chains) && Resumable(Contents(chains), cps) && AllElems(chains) <= elems
    ensures AtBacktracking(cps) && forall cp :: cp in cps && cp.Clause? ==> cp.elem in elems
  {
    hide Chain.Valid;
    forall cp | cp in cps && cp.Clause?
      ensures cp.elem.op in {Retry, Trust} && cp.elem in elems
    {
      var ch :| ch in Contents(chains) && Inside(Contents(chains)[ch], cp.elem);
      InsideOp(ch, cp.elem);
      InElems(ch, chains, elems);
    }
  }

  ghost function ItemsOf(elems: set<Elem>): set<Item> {
    set x | x in elems :: x.item
  }

  /** After the marking, none of the clause's next elements is marked exactly when no choice point is there. */
  lemma MarkedIffPinned(c: Item, chains: set<Chain>, elems: set<Elem>, cps: seq<ChoicePoint>)
    requires World(chains) && Placed(c, chains) && AllElems(chains) <= elems && MarksRight(elems, cps)
    ensures forall e :: e in c.elems ==> (NextMarked(e) <==> Shielded(e.home.s, e, cps))
    ensures c.marked <==> Pinned(c, cps)
  {
    hide Pinned, World;
    forall e | e in c.elems
      ensures NextMarked(e) <==> Shielded(e.home.s, e, cps)
    {
      InElems(e.home, chains, elems);
    }
    InElems(c.elems[0].home, chains, elems);
    assert c.elems[0] in elems;
  }

  /** Marks what choice points refer to and decides whether `c` can be deleted. */
  method Examine(c: Item, cps: seq<ChoicePoint>, ghost chains: set<Chain>, ghost elems: set<Elem>) returns (ok: bool)
    requires World(chains) && Resumable(Contents(chains), cps) && AllElems(chains) <= elems && Placed(c, chains)
    requires forall it :: it in ItemsOf(elems) ==> !it.marked
    modifies ItemsOf(elems)`marked
    ensures ok <==> CanGo(c, cps)
    ensures ok ==> MarksRight(elems, cps)
    ensures forall it :: it in ItemsOf(elems) && it.marked ==> Pinned(it, cps)
  {
    CpsAtBacktracking(chains, cps, elems);
    hide Resumable, World, Pinned, Shielded, AllElems, AtBacktracking, NextMarked, Contents;
    var found := MarkChoicePoints(c, cps, ItemsOf(elems));
    if found { return false; }
    assert MarksRight(elems, cps);
    hide MarksRight;
    MarkedIffPinned(c, chains, elems, cps);
    ok := SafeToDelete(c, chains);
  }

  lemma MayGo(c: Item, cps: seq<ChoicePoint>)
    requires CanGo(c, cps)
    ensures !Pinned(c, cps) && forall e :: e in c.elems ==> !Shielded(e.home.s, e, cps)
  {
  }

  /** Deletes the clause `c`, nothing being in the way.  Every choice point can resume afterwards, and tries what
      it would have tried but for `c`. */
  method DeleteSafely(c: Item, ghost chains: set<Chain>, ghost blocks: set<Block>, ghost elems: set<Elem>,
                      ghost cps: seq<ChoicePoint>)
    returns (ghost gone: set<Elem>)
    requires World(chains) && Resumable(Contents(chains), cps) && AllElems(chains) <= elems && MarksRight(elems, cps)
    requires Blocks(blocks, Contents(chains)) && Placed(c, chains) && CanGo(c, cps)
    requires Flags(blocks, Contents(chains), {}) && forall b :: b in blocks ==> b.own.item != c
    modifies chains`first, chains`last, chains`s, elems`op, elems`prev, elems`next, blocks`nonempty, blocks`failed
    ensures World(chains) && Blocks(blocks, Contents(chains)) && Resumable(Contents(chains), cps) &&
            AllElems(chains) <= elems && Flags(blocks, Contents(chains), {})
    ensures Quiet(old(Contents(chains)), blocks, cps) ==> forall b :: b in blocks ==> b.failed == old(b.failed)
    ensures Reduced(old(Contents(chains)), Contents(chains), gone) && EntriesGone(c, 0, gone, blocks)
    ensures AllUndisturbed(old(Contents(chains)), Contents(chains), cps, gone)
  {
    OneChainEach(chains);
    ghost var l := Contents(chains);
    MayGo(c, cps);
    hide Blocks, Reduced, Resumable, World, Pinned, Shielded, AllElems, EntriesGone, MarksRight, Contents,
        AllUndisturbed, Placed, CanGo, Chain.Valid, Flags, Quiet;
    gone := ReallyDelete(c, chains, blocks, elems, cps);
    ResumeAfter(l, chains, cps, gone);
  }

  /** Retracts the clause `c`: deletes it exactly when no choice point is in the way, and otherwise leaves it in
      its chains.  Blocks that it leaves without clauses go as well or are made to fail; none is if there is no choice
      point in any chain of blocks. */
  method RetractClause(c: Item, cps: seq<ChoicePoint>, ghost chains: set<Chain>, ghost blocks: set<Block>,
                       ghost elems: set<Elem>)
    returns (deleted: bool, ghost gone: set<Elem>)
    requires World(chains) && Resumable(Contents(chains), cps) && AllElems(chains) <= elems
    requires Blocks(blocks, Contents(chains)) && Flags(blocks, Contents(chains), {}) && Placed(c, chains)
    requires forall b :: b in blocks ==> b.own.item != c
    requires forall it :: it in ItemsOf(elems) ==> !it.marked
    modifies ItemsOf(elems)`marked, chains`first, chains`last, chains`s, elems`op, elems`prev, elems`next,
             blocks`nonempty, blocks`failed
    ensures deleted <==> old(CanGo(c, cps))
    ensures World(chains) && Blocks(blocks, Contents(chains)) && Resumable(Contents(chains), cps)
    ensures Flags(blocks, Contents(chains), {})
    ensures !deleted || Quiet(old(Contents(chains)), blocks, cps) ==> Failing(blocks) == old(Failing(blocks))
    ensures if deleted
            then Reduced(old(Contents(chains)), Contents(chains), gone) && EntriesGone(c, 0, gone, blocks) &&
                 AllUndisturbed(old(Contents(chains)), Contents(chains), cps, gone)
            else Contents(chains) == old(Contents(chains))
    ensures forall it :: it in ItemsOf(elems) ==> !it.marked
  {
    hide Blocks, Reduced, Resumable, World, Pinned, Shielded, AllElems, EntriesGone, AtBacktracking, MarksRight,
        Contents, AllUndisturbed;
    hide Placed, CanGo, Chain.Valid, Flags, Quiet;
    gone := {};
    deleted := Examine(c, cps, chains, elems);
    if deleted {
      gone := DeleteSafely(c, chains, blocks, elems, cps);
    }
    CpsAtBacktracking(chains, cps, elems);
    UnmarkChoicePoints(cps, ItemsOf(elems));
  }
}
