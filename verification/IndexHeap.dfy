/** The index blocks as the linked chains hold them: what a lookup finds after a clause has been retracted is what it
    found before, without that clause. */
module IndexHeap {
  import Index
  import IndexLookup
  import IndexWalk
  import opened Chains
  import opened Reclaim

  // An index block: the chains of its hash table, and below it the chain of its clauses or of further blocks.
  datatype Sob = Sob(ind: int, buckets: seq<Chain>, all: Chain, kids: Chain)

  // The blocks, each known by its element in a chain of blocks.
  type Sobs = map<Elem, Sob>

  // The clause that an item stands for.
  type Names = Item -> Index.Clause

  ghost function At(l: Layout, ch: Chain): seq<Elem> {
    if ch in l then l[ch] else []
  }

  ghost function Named(s: seq<Elem>, names: Names): seq<Index.Clause> {
    if s == [] then [] else [names(s[0].item)] + Named(s[1..], names)
  }

  ghost function Table(l: Layout, chs: seq<Chain>, names: Names): seq<seq<Index.Clause>> {
    seq(|chs|, i requires 0 <= i < |chs| => Named(At(l, chs[i]), names))
  }

  /** The blocks of a chain, with `depth` levels of blocks below them, as module Index sees them; those in `f` have been
      made to fail. */
  ghost function View(l: Layout, sobs: Sobs, f: set<Elem>, names: Names, es: seq<Elem>, depth: nat): seq<Index.Block>
    decreases depth, |es|, 0
  {
    if es == [] then [] else [BlockOf(l, sobs, f, names, es[0], depth)] + View(l, sobs, f, names, es[1..], depth)
  }

  ghost function BlockOf(l: Layout, sobs: Sobs, f: set<Elem>, names: Names, e: Elem, depth: nat): Index.Block
    decreases depth, 0, 1
  {
    if e !in sobs then Index.Block(0, [], [], [], false)
    else
      var b := sobs[e];
      Index.Block(b.ind, Table(l, b.buckets, names),
                  if depth == 0 then [] else View(l, sobs, f, names, At(l, b.kids), depth - 1),
                  if depth == 0 then Named(At(l, b.all), names) else [], e in f)
  }

  // ---------------------------------------------------------------- leaving a clause out

  lemma {:induction false} NothingElse(s: seq<Index.Clause>, c: Index.Clause)
    requires forall x :: x in s ==> x == c
    ensures IndexLookup.Less(s, c) == []
  {
    if s != [] {
      assert s[0] in s && forall x :: x in s[1..] ==> x in s;
      NothingElse(s[1..], c);
    }
  }

  /** Of the elements `s` exactly those of the item `x` go, and no other item has its clause. */
  ghost predicate Goes(s: seq<Elem>, gone: set<Elem>, names: Names, x: Item) {
    forall z :: z in s ==> (z in gone <==> z.item == x) && (z.item != x ==> names(z.item) != names(x))
  }

  lemma {:induction false} NamedWithout(s: seq<Elem>, gone: set<Elem>, names: Names, x: Item)
    requires Goes(s, gone, names, x)
    ensures Named(Filter(s, gone), names) == IndexLookup.Less(Named(s, names), names(x))
  {
    if s != [] {
      assert s[0] in s && forall z :: z in s[1..] ==> z in s;
      NamedWithout(s[1..], gone, names, x);
      var f := Filter(s[1..], gone);
      assert ([s[0]] + f)[1..] == f;
      var n := Named(s[1..], names);
      assert ([names(s[0].item)] + n)[1..] == n;
    }
  }

  lemma {:induction false} NamedFrom(s: seq<Elem>, names: Names, c: Index.Clause) returns (z: Elem)
    requires c in Named(s, names)
    ensures z in s && names(z.item) == c
  {
    if c == names(s[0].item) {
      z := s[0];
    } else {
      z := NamedFrom(s[1..], names, c);
    }
  }

  // ---------------------------------------------------------------- one block

  /** The chains of the blocks: clauses in the buckets and the chains of clauses, blocks in the others. */
  ghost predicate Formed(l: Layout, sobs: Sobs) {
    forall e :: e in sobs ==>
      && sobs[e].all in l && sobs[e].kids in l && (forall i :: 0 <= i < |sobs[e].buckets| ==> sobs[e].buckets[i] in l)
      && (forall z :: z in l[sobs[e].kids] ==> z in sobs)
  }

  /** The item `x` has gone from the chains of clauses, and blocks that have gone had become empty. */
  ghost predicate ClauseGone(l: Layout, now: Layout, sobs: Sobs, names: Names, gone: set<Elem>, x: Item) {
    && Reduced(l, now, gone) && Formed(l, sobs)
    && (forall e :: e in sobs ==>
          && Goes(l[sobs[e].all], gone, names, x)
          && (forall i :: 0 <= i < |sobs[e].buckets| ==> Goes(l[sobs[e].buckets[i]], gone, names, x)))
    && (forall e, i :: e in sobs && e in gone && 0 <= i < |sobs[e].buckets| ==> now[sobs[e].buckets[i]] == [])
  }

  /** A block that has gone held nothing but the clause. */
  lemma OnlyThatClause(l: Layout, now: Layout, sobs: Sobs, f: set<Elem>, names: Names, gone: set<Elem>, x: Item,
                       e: Elem, depth: nat, index: seq<int>, level: nat, c: Index.Clause)
    requires ClauseGone(l, now, sobs, names, gone, x) && e in sobs && e in gone && level < |index|
    requires IndexLookup.Laid(BlockOf(l, sobs, f, names, e, depth), index, level)
    requires c in Index.Clauses([BlockOf(l, sobs, f, names, e, depth)])
    ensures c == names(x)
  {
    var b := BlockOf(l, sobs, f, names, e, depth);
    var n := |b.buckets|;
    var h := Index.Slot(c, b.ind, n);
    IndexLookup.SlottedHas(Index.Clauses([b]), b.ind, n, c);
    var ch := sobs[e].buckets[h];
    assert b.buckets[h] == Named(l[ch], names);
    var z := NamedFrom(l[ch], names, c);
    assert Filter(l[ch], gone) == [];
    if z !in gone { FilterKeeps(l[ch], gone); }
  }

  // ---------------------------------------------------------------- all blocks

  // What a lookup finds in and below one block.
  ghost function Below(b: Index.Block, k: nat, goal: Index.Keys, look: IndexLookup.Look): seq<Index.Clause> {
    if k == 0 then IndexLookup.Found(b, goal, look) else IndexLookup.Hits(b.kids, k - 1, goal, look)
  }

  lemma FoundWithout(l: Layout, now: Layout, sobs: Sobs, f: set<Elem>, f2: set<Elem>, names: Names, gone: set<Elem>,
                     x: Item, e: Elem, depth: nat, goal: Index.Keys, look: IndexLookup.Look)
    requires ClauseGone(l, now, sobs, names, gone, x) && e in sobs
    ensures IndexLookup.Found(BlockOf(now, sobs, f2, names, e, depth), goal, look) ==
            IndexLookup.Less(IndexLookup.Found(BlockOf(l, sobs, f, names, e, depth), goal, look), names(x))
  {
    var b := sobs[e];
    match look
    case AllChain => NamedWithout(l[b.all], gone, names, x);
    case ByIndex(ind) =>
      if |b.buckets| > 0 {
        var h := Index.HashVal(goal, ind, |b.buckets|);
        if h >= 0 { NamedWithout(l[b.buckets[h]], gone, names, x); }
      }
  }

  /** Whatever is found in a block is one of its clauses. */
  lemma FoundInside(b: Index.Block, index: seq<int>, level: nat, goal: Index.Keys, c: Index.Clause)
    requires index != [] && level <= IndexLookup.Depth(goal, index) && IndexLookup.Laid(b, index, level)
    requires c in Below(b, IndexLookup.Depth(goal, index) - level, goal, IndexLookup.LookFor(goal, index))
    ensures c in Index.Clauses([b])
  {
    hide *;
    var k, look := IndexLookup.Depth(goal, index) - level, IndexLookup.LookFor(goal, index);
    OneLaid(b, index, level);
    IndexLookup.HitsComplete([b], level, goal, index);
    IndexLookup.PartCounts(IndexLookup.Hits([b], k, goal, look), Index.Clauses([b]));
    BelowIsHits(b, k, goal, look);
    assert multiset(IndexLookup.Hits([b], k, goal, look))[c] > 0;
  }

  lemma OneLaid(b: Index.Block, index: seq<int>, level: nat)
    requires level < |index| && IndexLookup.Laid(b, index, level)
    ensures IndexLookup.AllLaid([b], index, level)
  {
  }

  lemma BelowIsHits(b: Index.Block, k: nat, goal: Index.Keys, look: IndexLookup.Look)
    ensures Below(b, k, goal, look) == IndexLookup.Hits([b], k, goal, look)
  {
    assert [b][1..] == [];
  }

  lemma LaidFirst(l: Layout, sobs: Sobs, f: set<Elem>, names: Names, es: seq<Elem>, depth: nat, index: seq<int>,
                  level: nat)
    requires level < |index| && es != [] && IndexLookup.AllLaid(View(l, sobs, f, names, es, depth), index, level)
    ensures IndexLookup.Laid(BlockOf(l, sobs, f, names, es[0], depth), index, level)
    ensures IndexLookup.AllLaid(View(l, sobs, f, names, es[1..], depth), index, level)
  {
    var v, w := View(l, sobs, f, names, es, depth), View(l, sobs, f, names, es[1..], depth);
    assert v[0] == BlockOf(l, sobs, f, names, es[0], depth);
    forall i | 0 <= i < |w|
      ensures IndexLookup.Laid(w[i], index, level)
    {
      assert w[i] == v[i + 1];
    }
  }

  lemma KidsLaid(l: Layout, sobs: Sobs, f: set<Elem>, names: Names, e: Elem, depth: nat, index: seq<int>, level: nat)
    requires level + 1 < |index| && e in sobs && depth > 0
    requires IndexLookup.Laid(BlockOf(l, sobs, f, names, e, depth), index, level)
    ensures IndexLookup.AllLaid(View(l, sobs, f, names, At(l, sobs[e].kids), depth - 1), index, level + 1)
  {
  }

  /** What is found in and below one block, with and without the clause. */
  lemma {:induction false} BelowWithout(l: Layout, now: Layout, sobs: Sobs, f: set<Elem>, f2: set<Elem>, names: Names,
                                        gone: set<Elem>, x: Item, e: Elem, depth: nat, index: seq<int>, level: nat,
                                        goal: Index.Keys)
    requires ClauseGone(l, now, sobs, names, gone, x) && e in sobs && level + depth + 1 == |index|
    requires level <= IndexLookup.Depth(goal, index)
    requires IndexLookup.Laid(BlockOf(l, sobs, f, names, e, depth), index, level)
    ensures var k, look := IndexLookup.Depth(goal, index) - level, IndexLookup.LookFor(goal, index);
            Below(BlockOf(now, sobs, f2, names, e, depth), k, goal, look) ==
            IndexLookup.Less(Below(BlockOf(l, sobs, f, names, e, depth), k, goal, look), names(x))
    decreases depth, 0, 1
  {
    hide IndexLookup.Laid, IndexLookup.AllLaid, IndexLookup.Hits, IndexLookup.Found, Goes, Below, BlockOf, View,
        ClauseGone, IndexLookup.Less;
    var k, look := IndexLookup.Depth(goal, index) - level, IndexLookup.LookFor(goal, index);
    BelowIs(l, sobs, f, names, e, depth, k, goal, look);
    BelowIs(now, sobs, f2, names, e, depth, k, goal, look);
    if k == 0 {
      FoundWithout(l, now, sobs, f, f2, names, gone, x, e, depth, goal, look);
    } else {
      KidsLaid(l, sobs, f, names, e, depth, index, level);
      KidsGone(l, now, sobs, names, gone, x, e);
      HitsWithout(l, now, sobs, f, f2, names, gone, x, l[sobs[e].kids], depth - 1, index, level + 1, goal);
    }
  }

  lemma BelowIs(l: Layout, sobs: Sobs, f: set<Elem>, names: Names, e: Elem, depth: nat, k: nat, goal: Index.Keys,
                look: IndexLookup.Look)
    requires e in sobs && k <= depth
    ensures Below(BlockOf(l, sobs, f, names, e, depth), k, goal, look) ==
            if k == 0 then IndexLookup.Found(BlockOf(l, sobs, f, names, e, depth), goal, look)
            else IndexLookup.Hits(View(l, sobs, f, names, At(l, sobs[e].kids), depth - 1), k - 1, goal, look)
  {
    hide IndexLookup.Found, IndexLookup.Hits, View;
  }

  lemma KidsGone(l: Layout, now: Layout, sobs: Sobs, names: Names, gone: set<Elem>, x: Item, e: Elem)
    requires ClauseGone(l, now, sobs, names, gone, x) && e in sobs
    ensures sobs[e].kids in l && At(l, sobs[e].kids) == l[sobs[e].kids]
    ensures At(now, sobs[e].kids) == Filter(l[sobs[e].kids], gone) && forall z :: z in l[sobs[e].kids] ==> z in sobs
  {
    hide Goes;
  }

  /** What is found in a chain of blocks, with and without the clause. */
  lemma {:induction false} HitsWithout(l: Layout, now: Layout, sobs: Sobs, f: set<Elem>, f2: set<Elem>, names: Names,
                                       gone: set<Elem>, x: Item, es: seq<Elem>, depth: nat, index: seq<int>,
                                       level: nat, goal: Index.Keys)
    requires ClauseGone(l, now, sobs, names, gone, x) && (forall e :: e in es ==> e in sobs)
    requires level + depth + 1 == |index| && level <= IndexLookup.Depth(goal, index)
    requires IndexLookup.AllLaid(View(l, sobs, f, names, es, depth), index, level)
    ensures var k, look := IndexLookup.Depth(goal, index) - level, IndexLookup.LookFor(goal, index);
            IndexLookup.Hits(View(now, sobs, f2, names, Filter(es, gone), depth), k, goal, look) ==
            IndexLookup.Less(IndexLookup.Hits(View(l, sobs, f, names, es, depth), k, goal, look), names(x))
    decreases depth, |es|, 0
  {
    hide IndexLookup.Laid, IndexLookup.AllLaid, IndexLookup.Found, IndexLookup.Hits, BlockOf, ClauseGone, View, Below;
    hide IndexLookup.Less;
    var k, look := IndexLookup.Depth(goal, index) - level, IndexLookup.LookFor(goal, index);
    if es == [] {
      NoHits(l, sobs, f, names, depth, k, goal, look, names(x));
      NoHits(now, sobs, f2, names, depth, k, goal, look, names(x));
    } else {
      var e, rest := es[0], es[1..];
      LaidFirst(l, sobs, f, names, es, depth, index, level);
      assert forall z :: z in rest ==> z in es;
      HitsWithout(l, now, sobs, f, f2, names, gone, x, rest, depth, index, level, goal);
      BelowWithout(l, now, sobs, f, f2, names, gone, x, e, depth, index, level, goal);
      FirstHits(l, sobs, f, names, e, rest, depth, k, goal, look);
      assert es == [e] + rest;
      IndexLookup.LessConcat(Below(BlockOf(l, sobs, f, names, e, depth), k, goal, look),
                 IndexLookup.Hits(View(l, sobs, f, names, rest, depth), k, goal, look), names(x));
      if e in gone {
        NothingLost(l, now, sobs, f, names, gone, x, e, depth, index, level, goal);
      } else {
        FirstHits(now, sobs, f2, names, e, Filter(rest, gone), depth, k, goal, look);
      }
    }
  }

  lemma NoHits(l: Layout, sobs: Sobs, f: set<Elem>, names: Names, depth: nat, k: nat, goal: Index.Keys,
               look: IndexLookup.Look, c: Index.Clause)
    ensures IndexLookup.Hits(View(l, sobs, f, names, [], depth), k, goal, look) == [] == IndexLookup.Less([], c)
  {
  }

  lemma FirstHits(l: Layout, sobs: Sobs, f: set<Elem>, names: Names, e: Elem, rest: seq<Elem>, depth: nat, k: nat,
                  goal: Index.Keys, look: IndexLookup.Look)
    ensures IndexLookup.Hits(View(l, sobs, f, names, [e] + rest, depth), k, goal, look) ==
            Below(BlockOf(l, sobs, f, names, e, depth), k, goal, look) +
            IndexLookup.Hits(View(l, sobs, f, names, rest, depth), k, goal, look)
  {
    hide BlockOf;
    assert ([e] + rest)[1..] == rest;
    var b, v := BlockOf(l, sobs, f, names, e, depth), View(l, sobs, f, names, rest, depth);
    assert ([b] + v)[1..] == v;
  }

  lemma NothingLost(l: Layout, now: Layout, sobs: Sobs, f: set<Elem>, names: Names, gone: set<Elem>, x: Item, e: Elem,
                    depth: nat, index: seq<int>, level: nat, goal: Index.Keys)
    requires ClauseGone(l, now, sobs, names, gone, x) && e in sobs && e in gone
    requires level + depth + 1 == |index| && level <= IndexLookup.Depth(goal, index)
    requires IndexLookup.Laid(BlockOf(l, sobs, f, names, e, depth), index, level)
    ensures IndexLookup.Less(Below(BlockOf(l, sobs, f, names, e, depth), IndexLookup.Depth(goal, index) - level, goal,
                       IndexLookup.LookFor(goal, index)), names(x)) == []
  {
    hide IndexLookup.Laid, Below, BlockOf, ClauseGone;
    var b := BlockOf(l, sobs, f, names, e, depth);
    var found := Below(b, IndexLookup.Depth(goal, index) - level, goal, IndexLookup.LookFor(goal, index));
    forall c | c in found
      ensures c == names(x)
    {
      FoundInside(b, index, level, goal, c);
      OnlyThatClause(l, now, sobs, f, names, gone, x, e, depth, index, level, c);
    }
    NothingElse(found, names(x));
  }

  // ---------------------------------------------------------------- the blocks stay in order

  // One block of a chain.
  lemma ViewFirst(l: Layout, sobs: Sobs, f: set<Elem>, names: Names, e: Elem, rest: seq<Elem>, depth: nat)
    ensures View(l, sobs, f, names, [e] + rest, depth) ==
            [BlockOf(l, sobs, f, names, e, depth)] + View(l, sobs, f, names, rest, depth)
  {
    assert ([e] + rest)[1..] == rest;
  }

  /** The clauses of one block without the clause, and its tables. */
  lemma {:induction false} BlockWithout(l: Layout, now: Layout, sobs: Sobs, f: set<Elem>, f2: set<Elem>, names: Names,
                                        gone: set<Elem>, x: Item, e: Elem, depth: nat, index: seq<int>, level: nat)
    requires ClauseGone(l, now, sobs, names, gone, x) && e in sobs && level + depth + 1 == |index|
    requires IndexLookup.Laid(BlockOf(l, sobs, f, names, e, depth), index, level)
    ensures IndexLookup.Laid(BlockOf(now, sobs, f2, names, e, depth), index, level)
    ensures Index.Clauses([BlockOf(now, sobs, f2, names, e, depth)]) ==
            IndexLookup.Less(Index.Clauses([BlockOf(l, sobs, f, names, e, depth)]), names(x))
    decreases depth, 0, 1
  {
    hide Index.Clauses, IndexLookup.AllLaid, Goes, View;
    var b, b2 := BlockOf(l, sobs, f, names, e, depth), BlockOf(now, sobs, f2, names, e, depth);
    Index.ClausesSingle(b);
    Index.ClausesSingle(b2);
    Index.NoClauses();
    if depth == 0 {
      NamedWithout(l[sobs[e].all], gone, names, x);
      assert b.all + [] == b.all && b2.all + [] == b2.all;
    } else {
      KidsLaid(l, sobs, f, names, e, depth, index, level);
      ViewWithout(l, now, sobs, f, f2, names, gone, x, l[sobs[e].kids], depth - 1, index, level + 1);
      assert [] + Index.Clauses(b.kids) == Index.Clauses(b.kids);
      assert [] + Index.Clauses(b2.kids) == Index.Clauses(b2.kids);
    }
    TablesWithout(l, now, sobs, names, gone, x, e, Index.Clauses([b]));
    IndexLookup.LessIn(Index.Clauses([b]), names(x));
  }

  lemma TablesWithout(l: Layout, now: Layout, sobs: Sobs, names: Names, gone: set<Elem>, x: Item, e: Elem,
                      s: seq<Index.Clause>)
    requires ClauseGone(l, now, sobs, names, gone, x) && e in sobs
    requires |sobs[e].buckets| > 0
    requires forall h :: 0 <= h < |sobs[e].buckets| ==>
               Table(l, sobs[e].buckets, names)[h] == Index.Slotted(s, sobs[e].ind, |sobs[e].buckets|, h)
    ensures forall h :: 0 <= h < |sobs[e].buckets| ==>
              Table(now, sobs[e].buckets, names)[h] ==
              Index.Slotted(IndexLookup.Less(s, names(x)), sobs[e].ind, |sobs[e].buckets|, h)
  {
    hide Index.Slotted, Goes, Named, IndexLookup.Less, Filter;
    var b := sobs[e];
    forall h | 0 <= h < |b.buckets|
      ensures Table(now, b.buckets, names)[h] == Index.Slotted(IndexLookup.Less(s, names(x)), b.ind, |b.buckets|, h)
    {
      NamedWithout(l[b.buckets[h]], gone, names, x);
      IndexLookup.SlottedLess(s, b.ind, |b.buckets|, h, names(x));
      assert Table(l, b.buckets, names)[h] == Named(l[b.buckets[h]], names);
    }
  }

  /** The blocks of a chain stay in order, and hold what they held but for the clause. */
  lemma {:induction false} ViewWithout(l: Layout, now: Layout, sobs: Sobs, f: set<Elem>, f2: set<Elem>, names: Names,
                                       gone: set<Elem>, x: Item, es: seq<Elem>, depth: nat, index: seq<int>,
                                       level: nat)
    requires ClauseGone(l, now, sobs, names, gone, x) && (forall e :: e in es ==> e in sobs)
    requires level + depth + 1 == |index| && IndexLookup.AllLaid(View(l, sobs, f, names, es, depth), index, level)
    ensures IndexLookup.AllLaid(View(now, sobs, f2, names, Filter(es, gone), depth), index, level)
    ensures Index.Clauses(View(now, sobs, f2, names, Filter(es, gone), depth)) ==
            IndexLookup.Less(Index.Clauses(View(l, sobs, f, names, es, depth)), names(x))
    decreases depth, |es|, 0
  {
    hide IndexLookup.Laid, BlockOf, ClauseGone, IndexLookup.Less, Index.Clauses, View;
    if es == [] {
      NoView(l, sobs, f, names, depth, names(x));
      NoView(now, sobs, f2, names, depth, names(x));
    } else {
      var e, rest := es[0], es[1..];
      var b, v := BlockOf(l, sobs, f, names, e, depth), View(l, sobs, f, names, rest, depth);
      LaidFirst(l, sobs, f, names, es, depth, index, level);
      assert forall z :: z in rest ==> z in es;
      ViewWithout(l, now, sobs, f, f2, names, gone, x, rest, depth, index, level);
      BlockWithout(l, now, sobs, f, f2, names, gone, x, e, depth, index, level);
      assert es == [e] + rest;
      ViewFirst(l, sobs, f, names, e, rest, depth);
      Index.ClausesConcat([b], v);
      IndexLookup.LessConcat(Index.Clauses([b]), Index.Clauses(v), names(x));
      if e in gone {
        BlockEmptied(l, now, sobs, f, names, gone, x, e, depth, index, level);
      } else {
        ViewFirst(now, sobs, f2, names, e, Filter(rest, gone), depth);
        Index.ClausesConcat([BlockOf(now, sobs, f2, names, e, depth)],
                            View(now, sobs, f2, names, Filter(rest, gone), depth));
      }
    }
  }

  lemma NoView(l: Layout, sobs: Sobs, f: set<Elem>, names: Names, depth: nat, c: Index.Clause)
    ensures View(l, sobs, f, names, [], depth) == [] && Index.Clauses([]) == [] == IndexLookup.Less([], c)
  {
  }

  lemma BlockEmptied(l: Layout, now: Layout, sobs: Sobs, f: set<Elem>, names: Names, gone: set<Elem>, x: Item, e: Elem,
                     depth: nat, index: seq<int>, level: nat)
    requires ClauseGone(l, now, sobs, names, gone, x) && e in sobs && e in gone && level + depth + 1 == |index|
    requires IndexLookup.Laid(BlockOf(l, sobs, f, names, e, depth), index, level)
    ensures IndexLookup.Less(Index.Clauses([BlockOf(l, sobs, f, names, e, depth)]), names(x)) == []
  {
    hide IndexLookup.Laid, BlockOf, ClauseGone, Index.Clauses;
    var s := Index.Clauses([BlockOf(l, sobs, f, names, e, depth)]);
    forall c | c in s
      ensures c == names(x)
    {
      OnlyThatClause(l, now, sobs, f, names, gone, x, e, depth, index, level, c);
    }
    NothingElse(s, names(x));
  }

  // ---------------------------------------------------------------- retracting

  /** Each block has its counter, its buckets and only these belong to it, and clauses are entered under their own
      items. */
  ghost predicate Hung(l: Layout, sobs: Sobs, blocks: set<Block>) {
    && sobs.Keys == Owns(blocks)
    && (forall e, i :: e in sobs && 0 <= i < |sobs[e].buckets| ==>
          sobs[e].buckets[i].bucket && sobs[e].buckets[i].block != null && sobs[e].buckets[i].block.own == e)
    && (forall ch :: ch in l && ch.bucket ==>
          ch.block != null && ch.block.own in sobs && ch in sobs[ch.block.own].buckets)
    && (forall e :: e in sobs ==> !sobs[e].kids.bucket && sobs[e].kids.kind == OfBlocks)
    && (forall e, z :: e in sobs && sobs[e].all in l && z in l[sobs[e].all] ==> z !in sobs)
    && (forall e, i :: e in sobs && 0 <= i < |sobs[e].buckets| && sobs[e].buckets[i] in l ==>
          forall z :: z in l[sobs[e].buckets[i]] ==> z !in sobs)
  }

  /** Everything in the chains is listed by its item, and no other item has the clause of `c`. */
  ghost predicate Listed(l: Layout, names: Names, c: Item)
    reads set ch, z | ch in l && z in l[ch] :: z.item
  {
    forall ch, z :: ch in l && z in l[ch] ==>
      z in z.item.elems && (z.item != c ==> names(z.item) != names(c))
  }

  lemma ElementsGo(l: Layout, sobs: Sobs, blocks: set<Block>, names: Names, c: Item, gone: set<Elem>, ch: Chain)
    requires sobs.Keys == Owns(blocks) && Listed(l, names, c) && EntriesGone(c, 0, gone, blocks)
    requires (forall e :: e in c.elems ==> e.item == c) && ch in l && forall z :: z in l[ch] ==> z !in sobs
    ensures Goes(l[ch], gone, names, c)
  {
    assert c.elems[0..] == c.elems;
  }

  /** A block that has gone has no clauses left. */
  lemma BucketsEmptied(l: Layout, now: Layout, sobs: Sobs, blocks: set<Block>, gone: set<Elem>, e: Elem, i: int)
    requires Reduced(l, now, gone) && Blocks(blocks, now) && Formed(l, sobs) && Hung(l, sobs, blocks)
    requires e in sobs && e in gone && 0 <= i < |sobs[e].buckets|
    ensures now[sobs[e].buckets[i]] == []
  {
    var ch := sobs[e].buckets[i];
    var b := ch.block;
    assert b in blocks && BlockRight(b, now);
    forall host | host in now
      ensures e !in now[host]
    {
      FilterKeeps(l[host], gone);
    }
    assert !Hosted(now, e);
    assert ch !in Filled(b, now);
  }

  /** What retracting a clause does to the chains. */
  lemma RetractedIsGone(l: Layout, now: Layout, sobs: Sobs, blocks: set<Block>, names: Names, c: Item, gone: set<Elem>)
    requires Reduced(l, now, gone) && Blocks(blocks, now) && EntriesGone(c, 0, gone, blocks)
    requires Formed(l, sobs) && Hung(l, sobs, blocks) && Listed(l, names, c) && forall e :: e in c.elems ==> e.item == c
    ensures ClauseGone(l, now, sobs, names, gone, c)
  {
    hide Blocks, EntriesGone, Listed, Goes;
    forall e | e in sobs
      ensures Goes(l[sobs[e].all], gone, names, c)
      ensures forall i :: 0 <= i < |sobs[e].buckets| ==> Goes(l[sobs[e].buckets[i]], gone, names, c)
    {
      ElementsGo(l, sobs, blocks, names, c, gone, sobs[e].all);
      forall i | 0 <= i < |sobs[e].buckets|
        ensures Goes(l[sobs[e].buckets[i]], gone, names, c)
      {
        ElementsGo(l, sobs, blocks, names, c, gone, sobs[e].buckets[i]);
      }
    }
    forall e, i | e in sobs && e in gone && 0 <= i < |sobs[e].buckets|
      ensures now[sobs[e].buckets[i]] == []
    {
      BucketsEmptied(l, now, sobs, blocks, gone, e, i);
    }
  }

  /** The blocks of the predicate with the chain `root`; those in `f` have been made to fail. */
  ghost function Seen(l: Layout, sobs: Sobs, f: set<Elem>, names: Names, root: Chain, index: seq<int>)
    : seq<Index.Block>
    requires index != []
  {
    View(l, sobs, f, names, At(l, root), |index| - 1)
  }

  /** The chains hold the blocks in order: what a lookup among those of `root` relies on. */
  ghost predicate Ordered(l: Layout, sobs: Sobs, f: set<Elem>, names: Names, root: Chain, index: seq<int>)
    requires index != []
  {
    && root in l && !root.bucket && root.kind == OfBlocks && (forall e :: e in l[root] ==> e in sobs) && Formed(l, sobs)
    && IndexLookup.AllLaid(Seen(l, sobs, f, names, root, index), index, 0)
  }

  /** The blocks of the predicate with the chain `root`, as a lookup finds them in the chains. */
  ghost function Shown(l: Layout, sobs: Sobs, blocks: set<Block>, names: Names, root: Chain, index: seq<int>)
    : seq<Index.Block>
    requires index != []
    reads blocks`failed
  {
    Seen(l, sobs, Failing(blocks), names, root, index)
  }

  /** The chains of a predicate, its index blocks with their counters, and what has been made to fail, fit together. */
  ghost predicate Fit(l: Layout, sobs: Sobs, blocks: set<Block>, names: Names, root: Chain, index: seq<int>)
    requires index != []
    reads blocks`nonempty, blocks`failed
  {
    && Blocks(blocks, l) && Flags(blocks, l, {}) && Hung(l, sobs, blocks)
    && Ordered(l, sobs, Failing(blocks), names, root, index)
  }

  // ---------------------------------------------------------------- blocks without clauses

  lemma FilledIff(l: Layout, sobs: Sobs, blocks: set<Block>, b: Block)
    requires Hung(l, sobs, blocks) && Formed(l, sobs) && b in blocks
    requires forall x, y :: x in blocks && y in blocks && x.own == y.own ==> x == y
    requires forall ch :: ch in l && ch.bucket ==> ch.block in blocks
    ensures b.own in sobs
    ensures Filled(b, l) == {} <==> forall i :: 0 <= i < |sobs[b.own].buckets| ==> l[sobs[b.own].buckets[i]] == []
  {
    var own := sobs[b.own].buckets;
    if Filled(b, l) == {} {
      forall i | 0 <= i < |own|
        ensures l[own[i]] == []
      {
        assert own[i] !in Filled(b, l);
      }
    } else {
      var ch :| ch in Filled(b, l);
      assert ch in own;
    }
  }

  /** A block in a chain has been made to fail exactly if it has no clauses. */
  lemma FailedIff(l: Layout, sobs: Sobs, blocks: set<Block>, names: Names, e: Elem, depth: nat, index: seq<int>,
                  level: nat)
    requires Blocks(blocks, l) && Flags(blocks, l, {}) && Hung(l, sobs, blocks) && Formed(l, sobs)
    requires e in sobs && Hosted(l, e) && level < |index|
    requires IndexLookup.Laid(BlockOf(l, sobs, Failing(blocks), names, e, depth), index, level)
    ensures var b := BlockOf(l, sobs, Failing(blocks), names, e, depth); b.failed <==> Index.Clauses([b]) == []
  {
    hide Hung, Formed, Hosted, IndexLookup.Laid, Index.Clauses, View, At, Named;
    var s := BlockOf(l, sobs, Failing(blocks), names, e, depth);
    IndexLookup.EmptyIff(s, index, level);
    var b := OwnerOf(l, sobs, blocks, e);
    FilledIff(l, sobs, blocks, b);
    assert BlockRight(b, l);
    assert s.failed <==> b.failed;
    NamedBuckets(l, sobs, names, e);
  }

  lemma OwnerOf(l: Layout, sobs: Sobs, blocks: set<Block>, e: Elem) returns (b: Block)
    requires Hung(l, sobs, blocks) && e in sobs
    ensures b in blocks && b.own == e
  {
    assert e in Owns(blocks);
    b :| b in blocks && b.own == e;
  }

  lemma NamedBuckets(l: Layout, sobs: Sobs, names: Names, e: Elem)
    requires Formed(l, sobs) && e in sobs
    ensures forall i :: 0 <= i < |sobs[e].buckets| ==>
              (Table(l, sobs[e].buckets, names)[i] == [] <==> l[sobs[e].buckets[i]] == [])
  {
  }

  /** So the blocks are fit for the walk of first_clref and next_clref. */
  lemma {:induction false} ViewKept(l: Layout, sobs: Sobs, blocks: set<Block>, names: Names, es: seq<Elem>, depth: nat,
                                    index: seq<int>, level: nat)
    requires Blocks(blocks, l) && Flags(blocks, l, {}) && Hung(l, sobs, blocks) && Formed(l, sobs)
    requires (forall e :: e in es ==> e in sobs && Hosted(l, e)) && level + depth + 1 == |index|
    requires IndexLookup.AllLaid(View(l, sobs, Failing(blocks), names, es, depth), index, level)
    ensures IndexWalk.AllKept(View(l, sobs, Failing(blocks), names, es, depth), index, level)
    decreases depth, |es|, 0
  {
    hide Blocks, Flags, Hung, Formed, Hosted, IndexLookup.AllLaid, IndexLookup.Laid, Failing, BlockOf, Index.Clauses,
        IndexWalk.Kept;
    if es != [] {
      var f := Failing(blocks);
      LaidFirst(l, sobs, f, names, es, depth, index, level);
      assert forall z :: z in es[1..] ==> z in es;
      ViewKept(l, sobs, blocks, names, es[1..], depth, index, level);
      BlockKept(l, sobs, blocks, names, es[0], depth, index, level);
      assert View(l, sobs, f, names, es, depth) ==
             [BlockOf(l, sobs, f, names, es[0], depth)] + View(l, sobs, f, names, es[1..], depth);
    }
  }

  lemma {:induction false} BlockKept(l: Layout, sobs: Sobs, blocks: set<Block>, names: Names, e: Elem, depth: nat,
                                     index: seq<int>, level: nat)
    requires Blocks(blocks, l) && Flags(blocks, l, {}) && Hung(l, sobs, blocks) && Formed(l, sobs)
    requires e in sobs && Hosted(l, e) && level + depth + 1 == |index|
    requires IndexLookup.Laid(BlockOf(l, sobs, Failing(blocks), names, e, depth), index, level)
    ensures IndexWalk.Kept(BlockOf(l, sobs, Failing(blocks), names, e, depth), index, level)
    decreases depth, 0, 1
  {
    hide Blocks, Flags, Hosted, IndexLookup.AllLaid, IndexLookup.Laid, Failing, Index.Clauses, View, IndexWalk.AllKept;
    FailedIff(l, sobs, blocks, names, e, depth, index, level);
    if depth > 0 {
      KidsLaid(l, sobs, Failing(blocks), names, e, depth, index, level);
      ChainHosts(l, sobs[e].kids);
      ViewKept(l, sobs, blocks, names, l[sobs[e].kids], depth - 1, index, level + 1);
    }
  }

  lemma ChainHosts(l: Layout, ch: Chain)
    requires ch in l && !ch.bucket
    ensures forall e :: e in l[ch] ==> Hosted(l, e)
  {
  }

  /** The blocks of a predicate are fit for the walk, and every lookup gets through if none has been made to fail. */
  lemma FitIsKept(l: Layout, sobs: Sobs, blocks: set<Block>, names: Names, root: Chain, index: seq<int>)
    requires index != [] && Fit(l, sobs, blocks, names, root, index)
    ensures IndexWalk.AllKept(Shown(l, sobs, blocks, names, root, index), index, 0)
    ensures Failing(blocks) == {} ==> IndexWalk.Tidy(Shown(l, sobs, blocks, names, root, index), true)
    ensures (forall goal :: IndexWalk.Passes(Shown(l, sobs, blocks, names, root, index), goal, index)) <==>
            IndexWalk.Tidy(Shown(l, sobs, blocks, names, root, index), true)
  {
    hide Blocks, Flags, Hung, Formed, Hosted, IndexLookup.AllLaid, IndexWalk.AllKept, IndexWalk.Tidy, View, Failing,
        IndexWalk.Passes;
    ChainHosts(l, root);
    ViewKept(l, sobs, blocks, names, l[root], |index| - 1, index, 0);
    IndexWalk.AllPassIffTidy(Shown(l, sobs, blocks, names, root, index), index);
    if Failing(blocks) == {} { NoneFailed(l, sobs, names, l[root], |index| - 1, true); }
  }

  lemma {:induction false} NoneFailed(l: Layout, sobs: Sobs, names: Names, es: seq<Elem>, depth: nat, top: bool)
    ensures IndexWalk.Tidy(View(l, sobs, {}, names, es, depth), top)
    ensures forall i :: 0 <= i < |View(l, sobs, {}, names, es, depth)| ==>
              !View(l, sobs, {}, names, es, depth)[i].failed &&
              IndexWalk.Tidy(View(l, sobs, {}, names, es, depth)[i].kids, false)
    decreases depth, |es|
  {
    hide Table, Named, At;
    if es != [] {
      NoneFailed(l, sobs, names, es[1..], depth, top);
      var b := BlockOf(l, sobs, {}, names, es[0], depth);
      if es[0] in sobs && depth > 0 { NoneFailed(l, sobs, names, At(l, sobs[es[0]].kids), depth - 1, false); }
      assert IndexWalk.Tidy([], false);
      assert !b.failed && IndexWalk.Tidy(b.kids, false);
    }
  }

  /** A search with first_clref and next_clref in the chains: it gets through exactly if no block made to fail is in the
      way, and then finds part of the program, in order and without repetition, and of the clauses that agree with the
      goal all. */
  method FindInChains(view: seq<Index.Block>, goal: Index.Keys, ghost l: Layout, ghost sobs: Sobs,
                      ghost blocks: set<Block>, ghost names: Names, ghost root: Chain, ghost index: seq<int>)
    returns (found: seq<Index.Clause>, lost: bool)
    requires index != [] && Fit(l, sobs, blocks, names, root, index)
    requires view == Shown(l, sobs, blocks, names, root, index)
    ensures lost <==> !IndexWalk.Passes(view, goal, index)
    ensures forall c :: c in found ==> IndexLookup.Shares(view, goal, index, c)
    ensures !lost ==>
              var program := Index.Clauses(view);
              && found == IndexLookup.Answers(view, goal, index)
              && IndexLookup.Part(found, program) && multiset(found) <= multiset(program)
              && IndexLookup.Matching(found, goal, index) == IndexLookup.Matching(program, goal, index)
  {
    hide *;
    FitIsKept(l, sobs, blocks, names, root, index);
    FitIsLaid(l, sobs, blocks, names, root, index);
    found, lost := IndexWalk.FindAll(view, goal, index);
    IndexLookup.AnswersComplete(view, index, goal);
  }

  lemma FitIsLaid(l: Layout, sobs: Sobs, blocks: set<Block>, names: Names, root: Chain, index: seq<int>)
    requires index != [] && Fit(l, sobs, blocks, names, root, index)
    ensures IndexLookup.AllLaid(Shown(l, sobs, blocks, names, root, index), index, 0)
  {
    hide IndexLookup.AllLaid, View;
  }

  lemma OrderedWithout(l: Layout, now: Layout, sobs: Sobs, f: set<Elem>, f2: set<Elem>, blocks: set<Block>,
                       names: Names, c: Item, gone: set<Elem>, root: Chain, index: seq<int>)
    requires index != [] && Ordered(l, sobs, f, names, root, index) && ClauseGone(l, now, sobs, names, gone, c)
    requires Hung(l, sobs, blocks)
    ensures Ordered(now, sobs, f2, names, root, index) && Hung(now, sobs, blocks)
    ensures Index.Clauses(Seen(now, sobs, f2, names, root, index)) ==
            IndexLookup.Less(Index.Clauses(Seen(l, sobs, f, names, root, index)), names(c))
  {
    hide View, IndexLookup.AllLaid, Index.Clauses;
    ViewWithout(l, now, sobs, f, f2, names, gone, c, l[root], |index| - 1, index, 0);
    forall ch | ch in l
      ensures forall z :: z in now[ch] ==> z in l[ch]
    {
      FilterKeeps(l[ch], gone);
    }
  }

  lemma AnswersWithout(l: Layout, now: Layout, sobs: Sobs, f: set<Elem>, f2: set<Elem>, blocks: set<Block>,
                       names: Names, c: Item, gone: set<Elem>, root: Chain, index: seq<int>)
    requires Reduced(l, now, gone) && Blocks(blocks, now) && EntriesGone(c, 0, gone, blocks)
    requires Hung(l, sobs, blocks) && Listed(l, names, c) && forall e :: e in c.elems ==> e.item == c
    requires index != [] && Ordered(l, sobs, f, names, root, index)
    ensures ClauseGone(l, now, sobs, names, gone, c)
    ensures Ordered(now, sobs, f2, names, root, index) && Hung(now, sobs, blocks)
    ensures Index.Clauses(Seen(now, sobs, f2, names, root, index)) ==
            IndexLookup.Less(Index.Clauses(Seen(l, sobs, f, names, root, index)), names(c))
    ensures forall goal :: IndexLookup.Answers(Seen(now, sobs, f2, names, root, index), goal, index) ==
                           IndexLookup.Less(IndexLookup.Answers(Seen(l, sobs, f, names, root, index), goal, index),
                                names(c))
  {
    hide Formed, Hung, Listed, Blocks, EntriesGone, IndexLookup.AllLaid, View, ClauseGone, IndexLookup.Hits;
    RetractedIsGone(l, now, sobs, blocks, names, c, gone);
    OrderedWithout(l, now, sobs, f, f2, blocks, names, c, gone, root, index);
    forall goal
      ensures IndexLookup.Answers(Seen(now, sobs, f2, names, root, index), goal, index) ==
              IndexLookup.Less(IndexLookup.Answers(Seen(l, sobs, f, names, root, index), goal, index), names(c))
    {
      HitsWithout(l, now, sobs, f, f2, names, gone, c, l[root], |index| - 1, index, 0, goal);
    }
  }

  /** The test with which NextSOB finds the end of a chain of blocks, as the walk has it. */
  lemma EndSeen(chains: set<Chain>, sobs: Sobs, blocks: set<Block>, names: Names, root: Chain, index: seq<int>,
                ch: Chain, i: int)
    requires World(chains) && index != [] && Fit(Contents(chains), sobs, blocks, names, root, index)
    requires ch == root || exists e :: e in sobs && ch == sobs[e].kids
    requires ch in chains && 0 <= i < |ch.s|
    ensures ch.s[i].op in {Trust, Noop} <==> i == |ch.s| - 1
    ensures i < |ch.s| - 1 ==> ch.s[i].next == Link.At(ch.s[i + 1])
  {
    hide Blocks, Flags, Chain.Valid, Formed, IndexLookup.AllLaid, Seen;
    EndKnown(ch, i);
  }

  // ---------------------------------------------------------------- retracting as on sequences

  lemma TableThinned(l: Layout, now: Layout, sobs: Sobs, names: Names, gone: set<Elem>, x: Item, e: Elem)
    requires ClauseGone(l, now, sobs, names, gone, x) && e in sobs
    ensures IndexLookup.LessEach(Table(l, sobs[e].buckets, names), names(x)) == Table(now, sobs[e].buckets, names)
  {
    var chs := sobs[e].buckets;
    forall i | 0 <= i < |chs|
      ensures IndexLookup.Less(Table(l, chs, names)[i], names(x)) == Table(now, chs, names)[i]
    {
      NamedWithout(l[chs[i]], gone, names, x);
    }
  }

  /** A block that stays is what the retraction on sequences makes of it. */
  lemma {:induction false} BlockThinned(l: Layout, now: Layout, sobs: Sobs, names: Names, gone: set<Elem>, x: Item,
                                        e: Elem, depth: nat, index: seq<int>, level: nat)
    requires ClauseGone(l, now, sobs, names, gone, x) && e in sobs && level + depth + 1 == |index|
    requires IndexLookup.Laid(BlockOf(l, sobs, {}, names, e, depth), index, level)
    requires IndexWalk.Kept(BlockOf(now, sobs, {}, names, e, depth), index, level)
    ensures BlockOf(now, sobs, {}, names, e, depth) ==
            IndexLookup.Thinned(BlockOf(l, sobs, {}, names, e, depth), names(x))
    decreases depth, 0, 1
  {
    hide IndexLookup.Laid, Index.Clauses, View, Goes, IndexWalk.AllKept, IndexLookup.Without, IndexLookup.Less, Named;
    TableThinned(l, now, sobs, names, gone, x, e);
    IndexLookup.NoneLess(names(x));
    IndexLookup.NothingBelow(names(x));
    if depth == 0 {
      NamedWithout(l[sobs[e].all], gone, names, x);
    } else {
      KidsLaid(l, sobs, {}, names, e, depth, index, level);
      ViewThinned(l, now, sobs, names, gone, x, l[sobs[e].kids], depth - 1, index, level + 1);
    }
  }

  lemma KeptFirst(l: Layout, sobs: Sobs, names: Names, es: seq<Elem>, depth: nat, index: seq<int>, level: nat)
    requires level < |index| && es != [] && IndexWalk.AllKept(View(l, sobs, {}, names, es, depth), index, level)
    ensures IndexWalk.Kept(BlockOf(l, sobs, {}, names, es[0], depth), index, level)
    ensures IndexWalk.AllKept(View(l, sobs, {}, names, es[1..], depth), index, level)
  {
    var v, w := View(l, sobs, {}, names, es, depth), View(l, sobs, {}, names, es[1..], depth);
    assert v[0] == BlockOf(l, sobs, {}, names, es[0], depth);
    forall i | 0 <= i < |w|
      ensures IndexWalk.Kept(w[i], index, level)
    {
      assert w[i] == v[i + 1];
    }
  }

  /** Of the blocks that go no bucket is left, of those that stay one is. */
  lemma GoesIfEmpty(l: Layout, now: Layout, sobs: Sobs, names: Names, gone: set<Elem>, x: Item, e: Elem, depth: nat,
                    index: seq<int>, level: nat)
    requires ClauseGone(l, now, sobs, names, gone, x) && e in sobs && level < |index|
    requires e !in gone ==> IndexWalk.Kept(BlockOf(now, sobs, {}, names, e, depth), index, level)
    ensures Index.Nonempty(IndexLookup.Thinned(BlockOf(l, sobs, {}, names, e, depth), names(x)).buckets) == 0 <==>
            e in gone
  {
    hide IndexLookup.Laid, Index.Clauses, View, Goes, IndexWalk.AllKept, IndexLookup.Without, IndexLookup.Less;
    TableThinned(l, now, sobs, names, gone, x, e);
    IndexLookup.NonemptyIff(Table(now, sobs[e].buckets, names));
    if e in gone {
      assert forall i :: 0 <= i < |sobs[e].buckets| ==> Table(now, sobs[e].buckets, names)[i] == [];
    } else {
      IndexLookup.EmptyIff(BlockOf(now, sobs, {}, names, e, depth), index, level);
    }
  }

  /** While no block is made to fail, a retraction in the chains is a retraction on sequences. */
  lemma {:induction false} ViewThinned(l: Layout, now: Layout, sobs: Sobs, names: Names, gone: set<Elem>, x: Item,
                                       es: seq<Elem>, depth: nat, index: seq<int>, level: nat)
    requires ClauseGone(l, now, sobs, names, gone, x) && (forall e :: e in es ==> e in sobs)
    requires level + depth + 1 == |index| && IndexLookup.AllLaid(View(l, sobs, {}, names, es, depth), index, level)
    requires IndexWalk.AllKept(View(now, sobs, {}, names, Filter(es, gone), depth), index, level)
    ensures View(now, sobs, {}, names, Filter(es, gone), depth) ==
            IndexLookup.Without(View(l, sobs, {}, names, es, depth), names(x))
    decreases depth, |es|, 0
  {
    hide IndexLookup.Laid, BlockOf, ClauseGone, Index.Clauses, IndexWalk.Kept, IndexWalk.AllKept, Index.Nonempty,
        IndexLookup.Thinned;
    if es != [] {
      var e, rest := es[0], es[1..];
      assert forall z :: z in rest ==> z in es;
      LaidFirst(l, sobs, {}, names, es, depth, index, level);
      if e in gone {
        GoesIfEmpty(l, now, sobs, names, gone, x, e, depth, index, level);
      } else {
        assert Filter(es, gone)[1..] == Filter(rest, gone);
        KeptFirst(now, sobs, names, Filter(es, gone), depth, index, level);
        GoesIfEmpty(l, now, sobs, names, gone, x, e, depth, index, level);
        BlockThinned(l, now, sobs, names, gone, x, e, depth, index, level);
      }
      ViewThinned(l, now, sobs, names, gone, x, rest, depth, index, level);
    }
  }

  // ---------------------------------------------------------------- the retraction

  lemma {:induction false} ViewAt(l: Layout, sobs: Sobs, f: set<Elem>, names: Names, es: seq<Elem>, depth: nat, i: nat)
    requires i < |es|
    ensures |View(l, sobs, f, names, es, depth)| == |es|
    ensures View(l, sobs, f, names, es, depth)[i] == BlockOf(l, sobs, f, names, es[i], depth)
    decreases |es|
  {
    hide BlockOf;
    if i > 0 {
      ViewAt(l, sobs, f, names, es[1..], depth, i - 1);
    } else if |es| > 1 {
      ViewAt(l, sobs, f, names, es[1..], depth, 0);
    }
  }

  lemma {:induction false} FilterLast(s: seq<Elem>, gone: set<Elem>)
    requires s != [] && s[|s| - 1] !in gone
    ensures Filter(s, gone) != [] && Filter(s, gone)[|Filter(s, gone)| - 1] == s[|s| - 1]
  {
    if |s| > 1 { FilterLast(s[1..], gone); }
  }

  /** A choice point is at the last block of the predicate, which holds no other clause. */
  ghost predicate Stuck(l: Layout, sobs: Sobs, f: set<Elem>, names: Names, root: Chain, index: seq<int>, c: Item,
                        cps: seq<ChoicePoint>)
    requires index != []
  {
    root in l && l[root] != [] && Clause(l[root][|l[root]| - 1]) in cps &&
    IndexLookup.Less(Index.Clauses([BlockOf(l, sobs, f, names, l[root][|l[root]| - 1], |index| - 1)]), names(c)) == []
  }

  lemma StillLast(l: Layout, now: Layout, gone: set<Elem>, root: Chain, cps: seq<ChoicePoint>)
    requires Reduced(l, now, gone) && Resumable(now, cps)
    requires Apart(l)
    requires root in l && l[root] != [] && Clause(l[root][|l[root]| - 1]) in cps
    ensures now[root] != [] && now[root][|now[root]| - 1] == l[root][|l[root]| - 1]
  {
    var e := l[root][|l[root]| - 1];
    assert Clause(e).elem == e && Located(now, e);
    var ch :| ch in now && Inside(now[ch], e);
    FilterKeeps(l[ch], gone);
    assert e in l[root] && ch == root;
    FilterLast(l[root], gone);
  }

  /** When such a clause is deleted its block stays, made to fail, at the end of the chain, and no lookup gets
      through. */
  lemma StuckFails(l: Layout, now: Layout, sobs: Sobs, f: set<Elem>, blocks: set<Block>, names: Names, c: Item,
                   gone: set<Elem>, root: Chain, index: seq<int>, cps: seq<ChoicePoint>)
    requires index != [] && ClauseGone(l, now, sobs, names, gone, c) && Ordered(l, sobs, f, names, root, index)
    requires Fit(now, sobs, blocks, names, root, index) && Resumable(now, cps)
    requires Apart(l)
    requires Stuck(l, sobs, f, names, root, index, c, cps)
    ensures forall goal :: !IndexWalk.Passes(Shown(now, sobs, blocks, names, root, index), goal, index)
  {
    hide Resumable, Formed, View, BlockOf, Blocks, Flags, Hung, IndexLookup.Laid, Index.Clauses, Goes;
    StillLast(l, now, gone, root, cps);
    FitIsKept(now, sobs, blocks, names, root, index);
    var n, i, j := |index| - 1, |l[root]| - 1, |now[root]| - 1;
    var e := l[root][i];
    ViewAt(l, sobs, f, names, l[root], n, i);
    ViewAt(now, sobs, Failing(blocks), names, now[root], n, j);
    BlockWithout(l, now, sobs, f, Failing(blocks), names, gone, c, e, n, index, 0);
    var view := Shown(now, sobs, blocks, names, root, index);
    assert IndexWalk.Kept(view[j], index, 0);
  }

  /** The program and the answers to every goal lack the clause, and are otherwise what they were. */
  ghost predicate Loses(before: seq<Index.Block>, now: seq<Index.Block>, c: Index.Clause, index: seq<int>)
    requires index != []
  {
    && Index.Clauses(now) == IndexLookup.Less(Index.Clauses(before), c)
    && forall goal ::
         IndexLookup.Answers(now, goal, index) == IndexLookup.Less(IndexLookup.Answers(before, goal, index), c)
  }

  /** Every lookup gets through. */
  ghost predicate AllPass(blocks: seq<Index.Block>, index: seq<int>)
    requires index != []
  {
    forall goal :: IndexWalk.Passes(blocks, goal, index)
  }

  /** No lookup gets through. */
  ghost predicate NonePasses(blocks: seq<Index.Block>, index: seq<int>)
    requires index != []
  {
    forall goal :: !IndexWalk.Passes(blocks, goal, index)
  }

  lemma FitPasses(l: Layout, sobs: Sobs, blocks: set<Block>, names: Names, root: Chain, index: seq<int>)
    requires index != [] && Fit(l, sobs, blocks, names, root, index)
    ensures var now := Shown(l, sobs, blocks, names, root, index);
            && IndexWalk.AllKept(now, index, 0) && (AllPass(now, index) <==> IndexWalk.Tidy(now, true))
            && (Failing(blocks) == {} ==> AllPass(now, index))
  {
    hide Fit, Shown, IndexWalk.Tidy, IndexWalk.Passes, IndexWalk.AllKept;
    FitIsKept(l, sobs, blocks, names, root, index);
  }

  /** What a retraction does to a predicate. */
  lemma Retracted(l: Layout, now: Layout, sobs: Sobs, f: set<Elem>, blocks: set<Block>, names: Names, c: Item,
                  gone: set<Elem>, root: Chain, index: seq<int>, cps: seq<ChoicePoint>)
    requires Reduced(l, now, gone) && Blocks(blocks, now) && Flags(blocks, now, {}) && EntriesGone(c, 0, gone, blocks)
    requires Hung(l, sobs, blocks) && Listed(l, names, c) && forall e :: e in c.elems ==> e.item == c
    requires index != [] && Ordered(l, sobs, f, names, root, index) && Resumable(now, cps)
    requires Apart(l)
    ensures Fit(now, sobs, blocks, names, root, index)
    ensures Loses(Seen(l, sobs, f, names, root, index), Shown(now, sobs, blocks, names, root, index), names(c), index)
    ensures Stuck(l, sobs, f, names, root, index, c, cps) ==>
              NonePasses(Shown(now, sobs, blocks, names, root, index), index)
    ensures f == {} && Failing(blocks) == {} ==>
              Shown(now, sobs, blocks, names, root, index) ==
              IndexLookup.Without(Seen(l, sobs, f, names, root, index), names(c))
  {
    hide Reduced, Resumable, Formed, View, Blocks, Flags, Hung, Listed, EntriesGone, Index.Clauses, ClauseGone,
        IndexLookup.Answers, IndexWalk.Passes, Stuck, Ordered, Seen, Failing;
    AnswersWithout(l, now, sobs, f, Failing(blocks), blocks, names, c, gone, root, index);
    if Stuck(l, sobs, f, names, root, index, c, cps) {
      StuckFails(l, now, sobs, f, blocks, names, c, gone, root, index, cps);
    }
    if f == {} && Failing(blocks) == {} { SeenThinned(l, now, sobs, blocks, names, c, gone, root, index); }
  }

  lemma SeenThinned(l: Layout, now: Layout, sobs: Sobs, blocks: set<Block>, names: Names, c: Item, gone: set<Elem>,
                    root: Chain, index: seq<int>)
    requires index != [] && ClauseGone(l, now, sobs, names, gone, c) && Ordered(l, sobs, {}, names, root, index)
    requires Fit(now, sobs, blocks, names, root, index) && Failing(blocks) == {}
    ensures Shown(now, sobs, blocks, names, root, index) ==
            IndexLookup.Without(Seen(l, sobs, {}, names, root, index), names(c))
  {
    hide View, IndexLookup.AllLaid, IndexWalk.AllKept, IndexLookup.Without, Blocks, Flags, Hung, Goes, IndexWalk.Tidy;
    FitIsKept(now, sobs, blocks, names, root, index);
    ViewThinned(l, now, sobs, names, gone, c, l[root], |index| - 1, index, 0);
  }

  lemma FitParts(l: Layout, sobs: Sobs, blocks: set<Block>, names: Names, root: Chain, index: seq<int>)
    requires index != []
    ensures Blocks(blocks, l) && Flags(blocks, l, {}) && Hung(l, sobs, blocks) &&
            Ordered(l, sobs, Failing(blocks), names, root, index) ==>
              Fit(l, sobs, blocks, names, root, index)
    ensures Shown(l, sobs, blocks, names, root, index) == Seen(l, sobs, Failing(blocks), names, root, index)
  {
  }

  lemma FitMeans(l: Layout, sobs: Sobs, blocks: set<Block>, names: Names, root: Chain, index: seq<int>)
    requires index != [] && Fit(l, sobs, blocks, names, root, index)
    ensures Blocks(blocks, l) && Flags(blocks, l, {}) && Hung(l, sobs, blocks)
    ensures Ordered(l, sobs, Failing(blocks), names, root, index)
    ensures Shown(l, sobs, blocks, names, root, index) == Seen(l, sobs, Failing(blocks), names, root, index)
  {
  }

  lemma OwnElements(c: Item, chains: set<Chain>)
    requires Placed(c, chains)
    ensures forall e :: e in c.elems ==> e.item == c
  {
  }

  lemma AfterRetract(l: Layout, f: set<Elem>, deleted: bool, gone: set<Elem>, c: Item, cps: seq<ChoicePoint>,
                     chains: set<Chain>, blocks: set<Block>, root: Chain, sobs: Sobs, names: Names, index: seq<int>)
    requires index != [] && Apart(l) && Ordered(l, sobs, f, names, root, index) && Hung(l, sobs, blocks)
    requires Listed(l, names, c) && forall e :: e in c.elems ==> e.item == c
    requires Blocks(blocks, Contents(chains)) && Flags(blocks, Contents(chains), {}) && Resumable(Contents(chains), cps)
    requires if deleted then Reduced(l, Contents(chains), gone) && EntriesGone(c, 0, gone, blocks)
             else Contents(chains) == l && Failing(blocks) == f
    ensures Fit(Contents(chains), sobs, blocks, names, root, index)
    ensures var before, now := Seen(l, sobs, f, names, root, index),
                               Shown(Contents(chains), sobs, blocks, names, root, index);
            && (if deleted then Loses(before, now, names(c), index) else now == before)
            && IndexWalk.AllKept(now, index, 0) && (AllPass(now, index) <==> IndexWalk.Tidy(now, true))
            && (Failing(blocks) == {} ==> AllPass(now, index))
            && (deleted && Stuck(l, sobs, f, names, root, index, c, cps) ==> NonePasses(now, index))
            && (deleted && f == {} && Failing(blocks) == {} ==> now == IndexLookup.Without(before, names(c)))
  {
    hide *;
    FitParts(Contents(chains), sobs, blocks, names, root, index);
    if deleted { Retracted(l, Contents(chains), sobs, f, blocks, names, c, gone, root, index, cps); }
    FitPasses(Contents(chains), sobs, blocks, names, root, index);
  }

  /** Retracts the clause of the item `c`.  If it is deleted, the program loses this clause and the answers to every
      goal are what they were, but for it; otherwise all stays the same.  The blocks remain fit for the walk of
      first_clref and next_clref.  As long as no block has been made to fail the blocks are those of the retraction on
      sequences and every lookup gets through; none is made to fail if no choice point is in a chain of blocks.  But if
      a choice point is at the last block and this clause was the only one there, no lookup gets through any more. */
  method RetractIndexed(c: Item, cps: seq<ChoicePoint>, ghost chains: set<Chain>, ghost blocks: set<Block>,
                        ghost elems: set<Elem>, ghost root: Chain, ghost sobs: Sobs, ghost names: Names,
                        ghost index: seq<int>)
    returns (deleted: bool, ghost before: seq<Index.Block>, ghost now: seq<Index.Block>)
    requires World(chains) && Resumable(Contents(chains), cps) && AllElems(chains) <= elems && Placed(c, chains)
    requires index != [] && Fit(Contents(chains), sobs, blocks, names, root, index)
    requires Listed(Contents(chains), names, c)
    requires forall b :: b in blocks ==> b.own.item != c
    requires forall it :: it in ItemsOf(elems) ==> !it.marked
    modifies ItemsOf(elems)`marked, chains`first, chains`last, chains`s, elems`op, elems`prev, elems`next,
             blocks`nonempty, blocks`failed
    ensures deleted <==> old(CanGo(c, cps))
    ensures World(chains) && Resumable(Contents(chains), cps) && Fit(Contents(chains), sobs, blocks, names, root, index)
    ensures before == old(Shown(Contents(chains), sobs, blocks, names, root, index))
    ensures now == Shown(Contents(chains), sobs, blocks, names, root, index)
    ensures if deleted then Loses(before, now, names(c), index) else now == before
    ensures IndexWalk.AllKept(now, index, 0) && (AllPass(now, index) <==> IndexWalk.Tidy(now, true))
    ensures Failing(blocks) == {} ==> AllPass(now, index)
    ensures deleted && old(Stuck(Contents(chains), sobs, Failing(blocks), names, root, index, c, cps)) ==>
              NonePasses(now, index)
    ensures deleted && old(Failing(blocks)) == {} && Failing(blocks) == {} ==>
              now == IndexLookup.Without(before, names(c))
    ensures !deleted || Quiet(old(Contents(chains)), blocks, cps) ==> Failing(blocks) == old(Failing(blocks))
  {
    hide *;
    OwnElements(c, chains);
    OneChainEach(chains);
    FitMeans(Contents(chains), sobs, blocks, names, root, index);
    ghost var l, f := Contents(chains), Failing(blocks);
    before := Seen(l, sobs, f, names, root, index);
    ghost var gone;
    deleted, gone := RetractClause(c, cps, chains, blocks, elems);
    AfterRetract(l, f, deleted, gone, c, cps, chains, blocks, root, sobs, names, index);
    now := Shown(Contents(chains), sobs, blocks, names, root, index);
  }
}
