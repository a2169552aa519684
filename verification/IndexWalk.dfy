/** The walk of first_clref and next_clref through the index blocks, which leaves them where it runs past a block that
    has been made to fail and has no other after it, or goes down from such a block. */
module IndexWalk {
  import opened Index
  import opened IndexLookup

  // ---------------------------------------------------------------- walking the blocks

  /** A path of positions leads to a block, one level further down at each step. */
  predicate OnPath(blocks: seq<Block>, p: seq<nat>)
    decreases |p|
  {
    p != [] && p[0] < |blocks| && (|p| == 1 || OnPath(blocks[p[0]].kids, p[1..]))
  }

  function BlockAt(blocks: seq<Block>, p: seq<nat>): Block
    requires OnPath(blocks, p)
    decreases |p|
  {
    if |p| == 1 then blocks[p[0]] else BlockAt(blocks[p[0]].kids, p[1..])
  }

  // The chain of blocks in which the block is.
  function Chain(blocks: seq<Block>, p: seq<nat>): seq<Block>
    requires OnPath(blocks, p)
    decreases |p|
  {
    if |p| == 1 then blocks else Chain(blocks[p[0]].kids, p[1..])
  }

  /** What is found after the block at `p` and what is below it. */
  function AfterPath(blocks: seq<Block>, p: seq<nat>, depth: nat, goal: Keys, look: Look): seq<Clause>
    requires OnPath(blocks, p) && |p| <= depth + 1
    decreases |p|
  {
    (if |p| == 1 then [] else AfterPath(blocks[p[0]].kids, p[1..], depth - 1, goal, look))
    + Hits(blocks[p[0] + 1..], depth, goal, look)
  }

  /** What is found from the block at `p` on. */
  function FromPath(blocks: seq<Block>, p: seq<nat>, depth: nat, goal: Keys, look: Look): seq<Clause>
    requires OnPath(blocks, p) && |p| <= depth + 1
    decreases |p|
  {
    if |p| == 1 then Hits(blocks[p[0]..], depth, goal, look)
    else FromPath(blocks[p[0]].kids, p[1..], depth - 1, goal, look) + Hits(blocks[p[0] + 1..], depth, goal, look)
  }

  lemma NoHits(depth: nat, goal: Keys, look: Look)
    ensures Hits([], depth, goal, look) == []
  {
  }

  /** At the end of a chain, what comes after is what comes after the block above. */
  lemma GoUpTwo(blocks: seq<Block>, p: seq<nat>, depth: nat, goal: Keys, look: Look)
    requires |p| == 2 && OnPath(blocks, p) && 1 <= depth && p[1] == |blocks[p[0]].kids| - 1
    ensures OnPath(blocks, p[..1])
    ensures AfterPath(blocks, p, depth, goal, look) == AfterPath(blocks, p[..1], depth, goal, look)
  {
    hide Hits, Found;
    var kids := blocks[p[0]].kids;
    assert kids[p[1] + 1..] == [];
    NoHits(depth - 1, goal, look);
    assert AfterPath(kids, p[1..], depth - 1, goal, look) == [];
    assert p[..1] == [p[0]];
  }

  lemma {:induction false} GoUp(blocks: seq<Block>, p: seq<nat>, depth: nat, goal: Keys, look: Look)
    requires OnPath(blocks, p) && 1 < |p| <= depth + 1 && p[|p| - 1] == |Chain(blocks, p)| - 1
    ensures OnPath(blocks, p[..|p| - 1])
    ensures AfterPath(blocks, p, depth, goal, look) == AfterPath(blocks, p[..|p| - 1], depth, goal, look)
    decreases |p|
  {
    hide Hits, Found, OnPath, Chain, AfterPath;
    PathStep(blocks, p, depth, goal, look);
    if |p| == 2 {
      ChainOfTwo(blocks, p);
      GoUpTwo(blocks, p, depth, goal, look);
    } else {
      var q := p[..|p| - 1];
      assert q[1..] == p[1..][..|p[1..]| - 1] && q[0] == p[0];
      GoUp(blocks[p[0]].kids, p[1..], depth - 1, goal, look);
      PathStep(blocks, q, depth, goal, look);
    }
  }

  lemma ChainOfTwo(blocks: seq<Block>, p: seq<nat>)
    requires |p| == 2 && OnPath(blocks, p)
    ensures p[0] < |blocks| && Chain(blocks, p) == blocks[p[0]].kids
  {
  }

  /** One level down along a path. */
  lemma PathStep(blocks: seq<Block>, p: seq<nat>, depth: nat, goal: Keys, look: Look)
    requires 1 < |p| <= depth + 1 && (OnPath(blocks, p) || (p[0] < |blocks| && OnPath(blocks[p[0]].kids, p[1..])))
    ensures p[0] < |blocks| && OnPath(blocks, p) && OnPath(blocks[p[0]].kids, p[1..])
    ensures Chain(blocks, p) == Chain(blocks[p[0]].kids, p[1..])
    ensures AfterPath(blocks, p, depth, goal, look) ==
            AfterPath(blocks[p[0]].kids, p[1..], depth - 1, goal, look) + Hits(blocks[p[0] + 1..], depth, goal, look)
    ensures FromPath(blocks, p, depth, goal, look) ==
            FromPath(blocks[p[0]].kids, p[1..], depth - 1, goal, look) + Hits(blocks[p[0] + 1..], depth, goal, look)
  {
    hide Hits;
  }

  lemma {:induction false} GoOn(blocks: seq<Block>, p: seq<nat>, depth: nat, goal: Keys, look: Look)
    requires OnPath(blocks, p) && |p| <= depth + 1 && p[|p| - 1] + 1 < |Chain(blocks, p)|
    ensures OnPath(blocks, p[..|p| - 1] + [p[|p| - 1] + 1])
    ensures AfterPath(blocks, p, depth, goal, look) ==
            FromPath(blocks, p[..|p| - 1] + [p[|p| - 1] + 1], depth, goal, look)
    decreases |p|
  {
    hide Hits, Chain, OnPath, AfterPath, FromPath;
    PathNotEmpty(blocks, p);
    var q := p[..|p| - 1] + [p[|p| - 1] + 1];
    if |p| > 1 {
      PathStep(blocks, p, depth, goal, look);
      GoOn(blocks[p[0]].kids, p[1..], depth - 1, goal, look);
      assert q[1..] == p[1..][..|p[1..]| - 1] + [p[|p| - 1] + 1] && q[0] == p[0];
      PathStep(blocks, q, depth, goal, look);
    } else {
      assert q == [p[0] + 1];
      ShortPath(blocks, p, depth, goal, look);
      ShortPath(blocks, q, depth, goal, look);
    }
  }

  lemma PathNotEmpty(blocks: seq<Block>, p: seq<nat>)
    requires OnPath(blocks, p)
    ensures p != []
  {
  }

  lemma ShortPath(blocks: seq<Block>, p: seq<nat>, depth: nat, goal: Keys, look: Look)
    requires |p| == 1
    ensures OnPath(blocks, p) <==> p[0] < |blocks|
    ensures OnPath(blocks, p) ==> Chain(blocks, p) == blocks && BlockAt(blocks, p) == blocks[p[0]]
    ensures OnPath(blocks, p) ==> AfterPath(blocks, p, depth, goal, look) == Hits(blocks[p[0] + 1..], depth, goal, look)
    ensures OnPath(blocks, p) ==> FromPath(blocks, p, depth, goal, look) == Hits(blocks[p[0]..], depth, goal, look)
  {
    hide Hits;
  }

  lemma {:induction false} GoDown(blocks: seq<Block>, p: seq<nat>, depth: nat, goal: Keys, look: Look)
    requires OnPath(blocks, p) && |p| <= depth && BlockAt(blocks, p).kids != []
    ensures OnPath(blocks, p + [0]) && BlockAt(blocks, p + [0]) == BlockAt(blocks, p).kids[0]
    ensures FromPath(blocks, p, depth, goal, look) == FromPath(blocks, p + [0], depth, goal, look)
    decreases |p|
  {
    assert (p + [0])[1..] == p[1..] + [0];
    if |p| > 1 {
      GoDown(blocks[p[0]].kids, p[1..], depth - 1, goal, look);
    } else {
      var kids := blocks[p[0]].kids;
      assert p[1..] + [0] == [0];
      assert kids[0..] == kids;
      assert blocks[p[0]..][1..] == blocks[p[0] + 1..];
    }
  }

  /** What is found from a block on is what is found in and below it and what comes after. */
  lemma {:induction false} FromIsBelow(blocks: seq<Block>, p: seq<nat>, depth: nat, goal: Keys, look: Look)
    requires OnPath(blocks, p) && |p| <= depth + 1
    ensures FromPath(blocks, p, depth, goal, look) ==
            Hits([BlockAt(blocks, p)], depth + 1 - |p|, goal, look) + AfterPath(blocks, p, depth, goal, look)
    decreases |p|
  {
    hide Chain, OnPath, AfterPath, FromPath, Found, Hits;
    PathNotEmpty(blocks, p);
    if |p| > 1 {
      PathStep(blocks, p, depth, goal, look);
      FromIsBelow(blocks[p[0]].kids, p[1..], depth - 1, goal, look);
    } else {
      ShortPath(blocks, p, depth, goal, look);
      assert blocks[p[0]..] == [blocks[p[0]]] + blocks[p[0] + 1..];
      HitsFirst(blocks[p[0]], blocks[p[0] + 1..], depth, goal, look);
    }
  }

  lemma HitsFirst(b: Block, rest: seq<Block>, depth: nat, goal: Keys, look: Look)
    ensures Hits([b] + rest, depth, goal, look) == Hits([b], depth, goal, look) + Hits(rest, depth, goal, look)
  {
    assert [b][1..] == [] && ([b] + rest)[1..] == rest;
  }

  lemma AtBottom(blocks: seq<Block>, p: seq<nat>, depth: nat, goal: Keys, look: Look)
    requires OnPath(blocks, p) && |p| == depth + 1
    ensures FromPath(blocks, p, depth, goal, look) ==
            Found(BlockAt(blocks, p), goal, look) + AfterPath(blocks, p, depth, goal, look)
  {
    hide Chain, OnPath, AfterPath, FromPath, Found;
    FromIsBelow(blocks, p, depth, goal, look);
    assert [BlockAt(blocks, p)][1..] == [];
  }

  lemma {:induction false} PathPrefix(blocks: seq<Block>, p: seq<nat>)
    requires OnPath(blocks, p)
    ensures p[|p| - 1] < |Chain(blocks, p)| && BlockAt(blocks, p) == Chain(blocks, p)[p[|p| - 1]]
    ensures |p| > 1 ==> OnPath(blocks, p[..|p| - 1]) && Chain(blocks, p) == BlockAt(blocks, p[..|p| - 1]).kids
    decreases |p|
  {
    if |p| > 1 {
      var kids := blocks[p[0]].kids;
      PathPrefix(kids, p[1..]);
      assert p[..|p| - 1][1..] == p[1..][..|p[1..]| - 1];
    }
  }

  /** The block number `j` of the same chain. */
  lemma {:induction false} Sibling(blocks: seq<Block>, p: seq<nat>, j: nat)
    requires OnPath(blocks, p) && j < |Chain(blocks, p)|
    ensures var q := p[..|p| - 1] + [j];
            OnPath(blocks, q) && Chain(blocks, q) == Chain(blocks, p) && BlockAt(blocks, q) == Chain(blocks, p)[j]
    decreases |p|
  {
    if |p| > 1 {
      Sibling(blocks[p[0]].kids, p[1..], j);
      assert (p[..|p| - 1] + [j])[1..] == p[1..][..|p[1..]| - 1] + [j];
    }
  }

  // ---------------------------------------------------------------- blocks made to fail

  /** The block is laid out for lookup, and has been made to fail exactly if it has no clauses. */
  ghost predicate Kept(b: Block, index: seq<int>, level: nat)
    requires level < |index|
    decreases b, 1
  {
    && Laid(b, index, level) && (b.failed <==> Clauses([b]) == [])
    && (level + 1 < |index| ==> AllKept(b.kids, index, level + 1))
  }

  ghost predicate AllKept(blocks: seq<Block>, index: seq<int>, level: nat)
    requires level < |index|
    decreases blocks, 0
  {
    forall i :: 0 <= i < |blocks| ==> Kept(blocks[i], index, level)
  }

  lemma {:induction false} KeptAt(blocks: seq<Block>, p: seq<nat>, index: seq<int>, level: nat)
    requires level < |index| && AllKept(blocks, index, level) && OnPath(blocks, p)
    ensures level + |p| <= |index| && Kept(BlockAt(blocks, p), index, level + |p| - 1)
    decreases |p|
  {
    assert Kept(blocks[p[0]], index, level);
    if |p| > 1 { KeptAt(blocks[p[0]].kids, p[1..], index, level + 1); }
  }

  lemma {:induction false} NoneIfAllFailed(blocks: seq<Block>)
    requires forall i :: 0 <= i < |blocks| ==> Clauses([blocks[i]]) == []
    ensures Clauses(blocks) == []
  {
    if blocks != [] {
      NoneIfAllFailed(blocks[1..]);
      ClausesSingle(blocks[0]);
    }
  }

  /** A block in use has clauses or blocks below it, and not all of these have been made to fail. */
  lemma InUse(b: Block, index: seq<int>, level: nat)
    requires level < |index| && Kept(b, index, level) && !b.failed
    ensures level + 1 == |index| ==> b.kids == [] && b.all != []
    ensures level + 1 < |index| ==> b.kids != [] && exists i :: 0 <= i < |b.kids| && !b.kids[i].failed
  {
    ClausesSingle(b);
    if level + 1 < |index| && forall i :: 0 <= i < |b.kids| ==> b.kids[i].failed {
      forall i | 0 <= i < |b.kids|
        ensures Clauses([b.kids[i]]) == []
      {
        assert Kept(b.kids[i], index, level + 1);
      }
      NoneIfAllFailed(b.kids);
    }
  }

  /** Nothing is found in or below a block made to fail. */
  lemma NothingInFailed(b: Block, index: seq<int>, level: nat, goal: Keys)
    requires level < |index| && Kept(b, index, level) && b.failed && level <= Depth(goal, index)
    ensures Hits([b], Depth(goal, index) - level, goal, LookFor(goal, index)) == []
  {
    hide Hits, Laid, Clauses, LookFor, Depth;
    HitsComplete([b], level, goal, index);
  }

  /** A lookup that looks `depth` levels below these blocks gets through them and what is below: neither the last block
      of a chain has been made to fail nor, in a chain below another block, the first, unless the lookup needs no more
      of it than its buckets. */
  predicate Passable(blocks: seq<Block>, depth: nat, look: Look, top: bool)
    decreases blocks
  {
    blocks != [] ==>
      && !blocks[|blocks| - 1].failed
      && (top || (depth == 0 && look != AllChain) || !blocks[0].failed)
      && (depth > 0 ==>
            forall i :: 0 <= i < |blocks| && !blocks[i].failed ==> Passable(blocks[i].kids, depth - 1, look, false))
  }

  /** A lookup for the goal gets through the blocks of a predicate. */
  predicate Passes(blocks: seq<Block>, goal: Keys, index: seq<int>)
    requires index != []
  {
    Passable(blocks, Depth(goal, index), LookFor(goal, index), true)
  }

  /** No block made to fail is the last of its chain, nor the first of a chain below another block in use. */
  predicate Tidy(blocks: seq<Block>, top: bool)
    decreases blocks
  {
    blocks != [] ==>
      && !blocks[|blocks| - 1].failed && (top || !blocks[0].failed)
      && forall i :: 0 <= i < |blocks| && !blocks[i].failed ==> Tidy(blocks[i].kids, false)
  }

  lemma {:induction false} TidyPasses(blocks: seq<Block>, depth: nat, look: Look, top: bool)
    requires Tidy(blocks, top)
    ensures Passable(blocks, depth, look, top)
    decreases blocks
  {
    if depth > 0 {
      forall i | 0 <= i < |blocks| && !blocks[i].failed
        ensures Passable(blocks[i].kids, depth - 1, look, false)
      {
        TidyPasses(blocks[i].kids, depth - 1, look, false);
      }
    }
  }

  lemma {:induction false} AllPassedIsTidy(blocks: seq<Block>, index: seq<int>, level: nat, top: bool)
    requires level < |index| && AllKept(blocks, index, level)
    requires Passable(blocks, |index| - 1 - level, AllChain, top)
    ensures Tidy(blocks, top)
    decreases blocks
  {
    forall i | 0 <= i < |blocks| && !blocks[i].failed
      ensures Tidy(blocks[i].kids, false)
    {
      assert Kept(blocks[i], index, level);
      if level + 1 < |index| {
        AllPassedIsTidy(blocks[i].kids, index, level + 1, false);
      } else {
        InUse(blocks[i], index, level);
      }
    }
  }

  lemma {:induction false} NothingBound(index: seq<int>, level: nat)
    requires level <= |index|
    ensures Usable(map[], index, level) == |index|
    decreases |index| - level
  {
    if level < |index| { NothingBound(index, level + 1); }
  }

  /** Exactly when every lookup gets through: no block made to fail is the last of its chain, nor the first of a chain
      below another. */
  lemma AllPassIffTidy(blocks: seq<Block>, index: seq<int>)
    requires index != [] && AllKept(blocks, index, 0)
    ensures (forall goal :: Passes(blocks, goal, index)) <==> Tidy(blocks, true)
  {
    hide AllKept;
    if forall goal :: Passes(blocks, goal, index) {
      NothingBound(index, 0);
      assert Passes(blocks, map[], index);
      AllPassedIsTidy(blocks, index, 0, true);
    }
    if Tidy(blocks, true) {
      forall goal
        ensures Passes(blocks, goal, index)
      {
        TidyPasses(blocks, Depth(goal, index), LookFor(goal, index), true);
      }
    }
  }

  /** Blocks to which clauses have only been added. */
  lemma {:induction false} RightIsKept(blocks: seq<Block>, index: seq<int>, level: nat)
    requires level < |index| && AllRight(blocks, index, level)
    ensures AllKept(blocks, index, level) && Tidy(blocks, true) && Tidy(blocks, false)
    decreases |index| - level
  {
    forall i | 0 <= i < |blocks|
      ensures Kept(blocks[i], index, level) && Tidy(blocks[i].kids, false)
    {
      var b := blocks[i];
      assert Right(b, index, level);
      ClausesSingle(b);
      RightIsLaid([b], index, level);
      assert Laid([b][0], index, level);
      if level + 1 < |index| {
        RightIsKept(b.kids, index, level + 1);
        assert Kept(b.kids[0], index, level + 1) && Right(b.kids[0], index, level + 1);
        assert b.kids == [b.kids[0]] + b.kids[1..];
        ClausesConcat([b.kids[0]], b.kids[1..]);
      }
    }
  }

  /** After any run of asserta, assertz and retract, with no choice point in the way, every lookup gets through. */
  lemma ChangesPass(run: seq<Change>, index: seq<int>, goal: Keys)
    requires index != []
    ensures AllKept(Database(run, index), index, 0) && Passes(Database(run, index), goal, index)
  {
    RightIsKept(Database(run, index), index, 0);
    AllPassIffTidy(Database(run, index), index);
  }

  // ---------------------------------------------------------------- where the walk gets through

  // From a block at which the walk has arrived, in and below it.
  predicate HereOk(b: Block, depth: nat, look: Look) {
    if b.failed then depth == 0 && look != AllChain else depth > 0 ==> Passable(b.kids, depth - 1, look, false)
  }

  // On from number `i` of a chain.
  predicate MoveOk(blocks: seq<Block>, i: nat, depth: nat, look: Look) {
    i + 1 < |blocks| ==>
      && !blocks[|blocks| - 1].failed
      && forall j :: i < j < |blocks| && !blocks[j].failed ==> HereOk(blocks[j], depth, look)
  }

  // On from the block at `p`.
  predicate AfterOk(blocks: seq<Block>, p: seq<nat>, depth: nat, look: Look)
    requires OnPath(blocks, p) && |p| <= depth + 1
    decreases |p|
  {
    PathPrefix(blocks, p);
    && MoveOk(Chain(blocks, p), p[|p| - 1], depth + 1 - |p|, look)
    && (|p| > 1 ==> AfterOk(blocks, p[..|p| - 1], depth, look))
  }

  predicate FromOk(blocks: seq<Block>, p: seq<nat>, depth: nat, look: Look)
    requires OnPath(blocks, p) && |p| <= depth + 1
  {
    HereOk(BlockAt(blocks, p), depth + 1 - |p|, look) && AfterOk(blocks, p, depth, look)
  }

  lemma UpOk(blocks: seq<Block>, p: seq<nat>, depth: nat, look: Look)
    requires OnPath(blocks, p) && |p| <= depth + 1 && p[|p| - 1] == |Chain(blocks, p)| - 1
    ensures |p| == 1 ==> AfterOk(blocks, p, depth, look)
    ensures |p| > 1 ==> OnPath(blocks, p[..|p| - 1])
    ensures |p| > 1 ==> (AfterOk(blocks, p, depth, look) <==> AfterOk(blocks, p[..|p| - 1], depth, look))
  {
    hide Chain, OnPath;
    PathPrefix(blocks, p);
  }

  /** Moving on by one in a chain. */
  lemma NextOk(blocks: seq<Block>, p: seq<nat>, depth: nat, look: Look)
    requires OnPath(blocks, p) && |p| <= depth + 1 && p[|p| - 1] + 1 < |Chain(blocks, p)|
    ensures var q := p[..|p| - 1] + [p[|p| - 1] + 1];
            && OnPath(blocks, q) && Chain(blocks, q) == Chain(blocks, p)
            && (!BlockAt(blocks, q).failed ==> (AfterOk(blocks, p, depth, look) <==> FromOk(blocks, q, depth, look)))
            && (BlockAt(blocks, q).failed ==>
                  (AfterOk(blocks, p, depth, look) <==>
                   q[|q| - 1] + 1 < |Chain(blocks, q)| && AfterOk(blocks, q, depth, look)))
  {
    hide Chain, OnPath, BlockAt, HereOk;
    PathNotEmpty(blocks, p);
    var j := p[|p| - 1] + 1;
    var q := p[..|p| - 1] + [j];
    PathPrefix(blocks, p);
    Sibling(blocks, p, j);
    PathPrefix(blocks, q);
    assert q[..|q| - 1] == p[..|p| - 1];
  }

  /** Going down from a block in use. */
  lemma DownOk(blocks: seq<Block>, p: seq<nat>, depth: nat, look: Look, index: seq<int>)
    requires index != [] && AllKept(blocks, index, 0) && OnPath(blocks, p) && |p| <= depth < |index|
    requires !BlockAt(blocks, p).failed
    ensures BlockAt(blocks, p).kids != [] && OnPath(blocks, p + [0])
    ensures FromOk(blocks, p, depth, look) <==> FromOk(blocks, p + [0], depth, look)
  {
    hide Chain, OnPath, AllKept, Kept, BlockAt, Passable, MoveOk;
    PathNotEmpty(blocks, p);
    var b := BlockAt(blocks, p);
    KeptAt(blocks, p, index, 0);
    InUse(b, index, |p| - 1);
    StepDown(blocks, p);
    var q := p + [0];
    PathPrefix(blocks, q);
    assert q[..|q| - 1] == p;
    EnterOk(b.kids, depth - |p|, look);
  }

  lemma {:induction false} StepDown(blocks: seq<Block>, p: seq<nat>)
    requires OnPath(blocks, p) && BlockAt(blocks, p).kids != []
    ensures OnPath(blocks, p + [0]) && BlockAt(blocks, p + [0]) == BlockAt(blocks, p).kids[0]
    decreases |p|
  {
    assert (p + [0])[1..] == p[1..] + [0];
    if |p| > 1 {
      StepDown(blocks[p[0]].kids, p[1..]);
    } else {
      assert p[1..] + [0] == [0];
    }
  }

  lemma EnterOk(kids: seq<Block>, depth: nat, look: Look)
    requires kids != [] && exists i :: 0 <= i < |kids| && !kids[i].failed
    ensures Passable(kids, depth, look, false) <==> HereOk(kids[0], depth, look) && MoveOk(kids, 0, depth, look)
  {
    if HereOk(kids[0], depth, look) && MoveOk(kids, 0, depth, look) && depth > 0 {
      forall i | 0 <= i < |kids| && !kids[i].failed
        ensures Passable(kids[i].kids, depth - 1, look, false)
      {
        assert HereOk(kids[i], depth, look);
      }
    }
  }

  // ---------------------------------------------------------------- the lookup procedures

  function Total(blocks: seq<Block>): nat {
    if blocks == [] then 0 else 1 + Total(blocks[0].kids) + Total(blocks[1..])
  }

  // How many blocks come after the one at `p` and those below it.
  function NodesAfter(blocks: seq<Block>, p: seq<nat>): nat
    requires OnPath(blocks, p)
    decreases |p|
  {
    (if |p| == 1 then 0 else NodesAfter(blocks[p[0]].kids, p[1..])) + Total(blocks[p[0] + 1..])
  }

  function NodesFrom(blocks: seq<Block>, p: seq<nat>): nat
    requires OnPath(blocks, p)
  {
    1 + Total(BlockAt(blocks, p).kids) + NodesAfter(blocks, p)
  }

  lemma {:induction false} FewerUp(blocks: seq<Block>, p: seq<nat>)
    requires OnPath(blocks, p) && |p| > 1 && p[|p| - 1] == |Chain(blocks, p)| - 1 && OnPath(blocks, p[..|p| - 1])
    ensures NodesAfter(blocks, p[..|p| - 1]) == NodesAfter(blocks, p)
    decreases |p|
  {
    var kids := blocks[p[0]].kids;
    if |p| > 2 {
      assert p[..|p| - 1][1..] == p[1..][..|p[1..]| - 1];
      FewerUp(kids, p[1..]);
    } else {
      assert kids[p[1] + 1..] == [] && p[..1] == [p[0]];
    }
  }

  lemma {:induction false} FewerOn(blocks: seq<Block>, p: seq<nat>)
    requires OnPath(blocks, p) && p[|p| - 1] + 1 < |Chain(blocks, p)|
    requires OnPath(blocks, p[..|p| - 1] + [p[|p| - 1] + 1])
    ensures NodesFrom(blocks, p[..|p| - 1] + [p[|p| - 1] + 1]) == NodesAfter(blocks, p)
    decreases |p|
  {
    var q := p[..|p| - 1] + [p[|p| - 1] + 1];
    if |p| > 1 {
      assert q[1..] == p[1..][..|p[1..]| - 1] + [p[|p| - 1] + 1];
      FewerOn(blocks[p[0]].kids, p[1..]);
    } else {
      assert q == [p[0] + 1];
      assert blocks[p[0] + 1..][1..] == blocks[p[0] + 1 + 1..];
    }
  }

  lemma {:induction false} FewerDown(blocks: seq<Block>, p: seq<nat>)
    requires OnPath(blocks, p) && BlockAt(blocks, p).kids != [] && OnPath(blocks, p + [0])
    requires BlockAt(blocks, p + [0]) == BlockAt(blocks, p).kids[0]
    ensures NodesFrom(blocks, p + [0]) < NodesFrom(blocks, p)
    decreases |p|
  {
    var kids := blocks[p[0]].kids;
    assert (p + [0])[1..] == p[1..] + [0];
    if |p| > 1 {
      FewerDown(kids, p[1..]);
    } else {
      assert p[1..] + [0] == [0];
      assert NodesAfter(kids, [0]) == Total(kids[1..]);
    }
  }

  // ---------------------------------------------------------------- the walk

  /** A clause found: the block in whose bucket or all-chain it is, and its place there; or the walk has left the
      blocks. */
  datatype Cursor = End | At(path: seq<nat>, off: nat) | Lost

  // Where the walk goes next: nowhere, the search being over; to a block; or out of the blocks.
  datatype Move = Over | On(path: seq<nat>) | Astray

  ghost predicate Points(blocks: seq<Block>, c: Cursor, goal: Keys, index: seq<int>)
    requires index != []
  {
    c.At? ==> OnPath(blocks, c.path) && |c.path| == Depth(goal, index) + 1 &&
              c.off < |Found(BlockAt(blocks, c.path), goal, LookFor(goal, index))|
  }

  /** The clauses from the cursor on that the lookup finds. */
  ghost function Remaining(blocks: seq<Block>, c: Cursor, goal: Keys, index: seq<int>): seq<Clause>
    requires index != [] && Points(blocks, c, goal, index)
  {
    if !c.At? then []
    else Found(BlockAt(blocks, c.path), goal, LookFor(goal, index))[c.off..]
         + AfterPath(blocks, c.path, Depth(goal, index), goal, LookFor(goal, index))
  }

  /** The rest of the walk gets through. */
  ghost predicate Going(blocks: seq<Block>, c: Cursor, goal: Keys, index: seq<int>)
    requires index != [] && Points(blocks, c, goal, index)
  {
    match c
    case End => true
    case Lost => false
    case At(p, _) => AfterOk(blocks, p, Depth(goal, index), LookFor(goal, index))
  }

  ghost function ClauseAt(blocks: seq<Block>, c: Cursor, goal: Keys, index: seq<int>): Clause
    requires index != [] && Points(blocks, c, goal, index) && c.At?
  {
    Found(BlockAt(blocks, c.path), goal, LookFor(goal, index))[c.off]
  }

  /** The level of the index in use, counted from 1, or 0 when all clauses are looked at. */
  ghost predicate LevelIs(iLevel: nat, ind: int, goal: Keys, index: seq<int>)
    requires index != []
  {
    match LookFor(goal, index)
    case AllChain => iLevel == 0
    case ByIndex(i) => iLevel == Depth(goal, index) + 1 && ind == i
  }

  /** Going down from a block in use loses nothing. */
  lemma Descend(blocks: seq<Block>, p: seq<nat>, goal: Keys, index: seq<int>)
    requires index != [] && AllKept(blocks, index, 0) && OnPath(blocks, p) && |p| <= Depth(goal, index)
    requires !BlockAt(blocks, p).failed
    ensures OnPath(blocks, p + [0]) && NodesFrom(blocks, p + [0]) < NodesFrom(blocks, p)
    ensures var d, look := Depth(goal, index), LookFor(goal, index);
            && FromPath(blocks, p + [0], d, goal, look) == FromPath(blocks, p, d, goal, look)
            && (FromOk(blocks, p + [0], d, look) <==> FromOk(blocks, p, d, look))
  {
    hide AllKept, OnPath, FromPath, FromOk, NodesFrom, BlockAt, LookFor;
    DownOk(blocks, p, Depth(goal, index), LookFor(goal, index), index);
    GoDown(blocks, p, Depth(goal, index), goal, LookFor(goal, index));
    FewerDown(blocks, p);
  }

  /** From a block made to fail the walk can only go on where it looks no further than the buckets. */
  lemma FromFailed(blocks: seq<Block>, p: seq<nat>, goal: Keys, index: seq<int>)
    requires index != [] && OnPath(blocks, p) && |p| <= Depth(goal, index) + 1 && BlockAt(blocks, p).failed
    requires |p| <= Depth(goal, index) || LookFor(goal, index) == AllChain
    ensures !FromOk(blocks, p, Depth(goal, index), LookFor(goal, index))
  {
    hide AfterOk, OnPath, BlockAt, LookFor, Depth;
  }

  lemma KeptFacts(blocks: seq<Block>, p: seq<nat>, index: seq<int>)
    requires index != [] && AllKept(blocks, index, 0) && OnPath(blocks, p)
    ensures 1 <= |p| <= |index| && BlockAt(blocks, p).ind == index[|p| - 1] && |BlockAt(blocks, p).buckets| > 0
    ensures !BlockAt(blocks, p).failed ==> (BlockAt(blocks, p).kids == [] <==> |p| == |index|)
    ensures !BlockAt(blocks, p).failed && |p| == |index| ==> BlockAt(blocks, p).all != []
  {
    hide BlockAt, AllKept, Clauses;
    KeptAt(blocks, p, index, 0);
    if !BlockAt(blocks, p).failed { InUse(BlockAt(blocks, p), index, |p| - 1); }
  }

  lemma UnboundSoFar(goal: Keys, index: seq<int>, n: nat)
    requires index != [] && n <= Depth(goal, index) + 1 && forall l :: 0 <= l < n - 1 ==> index[l] !in goal
    requires n > 0 && index[n - 1] !in goal
    ensures n <= Depth(goal, index) || LookFor(goal, index) == AllChain
    ensures n == |index| ==> n == Depth(goal, index) + 1 && LookFor(goal, index) == AllChain
    ensures n < |index| ==> n <= Depth(goal, index)
  {
  }

  lemma BoundHere(goal: Keys, index: seq<int>, n: nat)
    requires index != [] && 0 < n <= Depth(goal, index) + 1 && index[n - 1] in goal
    requires forall l :: 0 <= l < n - 1 ==> index[l] !in goal
    ensures n == Depth(goal, index) + 1 && LookFor(goal, index) == ByIndex(index[n - 1])
  {
  }

  /** Goes down from the block at `p0`, the first level, to the first index at which the goal is bound. */
  method FindUsableIndex(blocks: seq<Block>, p0: seq<nat>, goal: Keys, ghost index: seq<int>)
    returns (m: Move, iLevel: nat, ind: int)
    requires index != [] && AllKept(blocks, index, 0) && OnPath(blocks, p0) && |p0| == 1
    ensures !m.Over? && (m.Astray? ==> !FromOk(blocks, p0, Depth(goal, index), LookFor(goal, index)))
    ensures m.On? ==>
              && OnPath(blocks, m.path) && |m.path| == Depth(goal, index) + 1 && LevelIs(iLevel, ind, goal, index)
              && (FromOk(blocks, m.path, Depth(goal, index), LookFor(goal, index)) <==>
                  FromOk(blocks, p0, Depth(goal, index), LookFor(goal, index)))
              && FromPath(blocks, m.path, Depth(goal, index), goal, LookFor(goal, index)) ==
                 FromPath(blocks, p0, Depth(goal, index), goal, LookFor(goal, index))
              && NodesFrom(blocks, m.path) <= NodesFrom(blocks, p0)
              && (iLevel == 0 ==> !BlockAt(blocks, m.path).failed)
  {
    hide Hits, Found, FromPath, NodesFrom, AllKept, FromOk, OnPath, Depth, LookFor, BlockAt;
    ghost var d, look := Depth(goal, index), LookFor(goal, index);
    var p := p0;
    iLevel, ind := 0, 0;
    var i := 1;
    while true
      invariant i == |p| <= d + 1 && OnPath(blocks, p)
      invariant forall l :: 0 <= l < |p| - 1 ==> index[l] !in goal
      invariant iLevel == 0 && ind == 0
      invariant FromPath(blocks, p, d, goal, look) == FromPath(blocks, p0, d, goal, look)
      invariant FromOk(blocks, p, d, look) <==> FromOk(blocks, p0, d, look)
      invariant NodesFrom(blocks, p) <= NodesFrom(blocks, p0)
      decreases |index| - |p|
    {
      var b := BlockAt(blocks, p);
      KeptFacts(blocks, p, index);
      if HashVal(goal, b.ind, 1) >= 0 {
        BoundHere(goal, index, i);
        iLevel, ind := i, b.ind;
        m := On(p);
        return;
      }
      UnboundSoFar(goal, index, i);
      if b.failed {
        FromFailed(blocks, p, goal, index);
        m := Astray;
        return;
      }
      if b.kids == [] {
        m := On(p);
        return;
      }
      Descend(blocks, p, goal, index);
      p := p + [0];
      i := i + 1;
    }
  }

  lemma LevelZero(iLevel: nat, ind: int, goal: Keys, index: seq<int>)
    requires index != [] && LevelIs(iLevel, ind, goal, index)
    ensures iLevel == 0 <==> LookFor(goal, index) == AllChain
    ensures iLevel == 0 ==> Depth(goal, index) + 1 == |index|
    ensures iLevel > 0 ==> iLevel == Depth(goal, index) + 1 && LookFor(goal, index) == ByIndex(ind) && ind in goal
  {
  }

  lemma NothingThere(blocks: seq<Block>, p: seq<nat>, goal: Keys, index: seq<int>)
    requires index != [] && AllKept(blocks, index, 0) && OnPath(blocks, p) && |p| <= Depth(goal, index) + 1
    requires BlockAt(blocks, p).failed
    ensures FromPath(blocks, p, Depth(goal, index), goal, LookFor(goal, index)) ==
            AfterPath(blocks, p, Depth(goal, index), goal, LookFor(goal, index))
  {
    hide OnPath, FromPath, AfterPath, BlockAt, AllKept, Kept, Depth, LookFor, Hits;
    PathNotEmpty(blocks, p);
    KeptAt(blocks, p, index, 0);
    NothingInFailed(BlockAt(blocks, p), index, |p| - 1, goal);
    FromIsBelow(blocks, p, Depth(goal, index), goal, LookFor(goal, index));
  }

  /** Moves on by one in a chain, to a block made to fail or to another one. */
  lemma OneOn(blocks: seq<Block>, p: seq<nat>, goal: Keys, index: seq<int>)
    requires index != [] && AllKept(blocks, index, 0) && OnPath(blocks, p) && |p| <= Depth(goal, index) + 1
    requires p[|p| - 1] + 1 < |Chain(blocks, p)|
    ensures var q, d, look := p[..|p| - 1] + [p[|p| - 1] + 1], Depth(goal, index), LookFor(goal, index);
            && OnPath(blocks, q) && Chain(blocks, q) == Chain(blocks, p)
            && NodesFrom(blocks, q) == NodesAfter(blocks, p) && NodesAfter(blocks, q) <= NodesAfter(blocks, p)
            && FromPath(blocks, q, d, goal, look) == AfterPath(blocks, p, d, goal, look)
            && (if BlockAt(blocks, q).failed
                then AfterPath(blocks, q, d, goal, look) == AfterPath(blocks, p, d, goal, look) &&
                     (AfterOk(blocks, p, d, look) <==>
                      q[|q| - 1] + 1 < |Chain(blocks, q)| && AfterOk(blocks, q, d, look))
                else AfterOk(blocks, p, d, look) <==> FromOk(blocks, q, d, look))
  {
    hide OnPath, FromPath, AfterPath, BlockAt, AllKept, FromOk, AfterOk, Chain, Depth, LookFor, NodesAfter;
    PathNotEmpty(blocks, p);
    var q := p[..|p| - 1] + [p[|p| - 1] + 1];
    NextOk(blocks, p, Depth(goal, index), LookFor(goal, index));
    GoOn(blocks, p, Depth(goal, index), goal, LookFor(goal, index));
    FewerOn(blocks, p);
    if BlockAt(blocks, q).failed { NothingThere(blocks, q, goal, index); }
  }

  /** At the end of a chain, what comes after is what comes after the block above. */
  lemma OneUp(blocks: seq<Block>, p: seq<nat>, goal: Keys, index: seq<int>)
    requires index != [] && OnPath(blocks, p) && |p| <= Depth(goal, index) + 1
    requires p[|p| - 1] == |Chain(blocks, p)| - 1
    ensures var d, look := Depth(goal, index), LookFor(goal, index);
            if |p| == 1
            then AfterPath(blocks, p, d, goal, look) == [] && AfterOk(blocks, p, d, look)
            else OnPath(blocks, p[..|p| - 1]) && NodesAfter(blocks, p[..|p| - 1]) == NodesAfter(blocks, p) &&
                 AfterPath(blocks, p[..|p| - 1], d, goal, look) == AfterPath(blocks, p, d, goal, look) &&
                 (AfterOk(blocks, p[..|p| - 1], d, look) <==> AfterOk(blocks, p, d, look))
  {
    hide OnPath, AfterPath, AfterOk, Chain, Depth, LookFor, NodesAfter;
    PathNotEmpty(blocks, p);
    UpOk(blocks, p, Depth(goal, index), LookFor(goal, index));
    if |p| > 1 {
      GoUp(blocks, p, Depth(goal, index), goal, LookFor(goal, index));
      FewerUp(blocks, p);
    } else {
      ShortPath(blocks, p, Depth(goal, index), goal, LookFor(goal, index));
      assert blocks[p[0] + 1..] == [];
      NoHits(Depth(goal, index), goal, LookFor(goal, index));
    }
  }

  /** Moves on from the block at `p` to the next one in use of its chain, or of the nearest chain above that goes on.
      The chain is followed past its end if only blocks made to fail come after. */
  method NextSob(blocks: seq<Block>, p: seq<nat>, goal: Keys, iLevel0: nat, ind0: int, ghost index: seq<int>)
    returns (m: Move, iLevel: nat, ind: int)
    requires index != [] && AllKept(blocks, index, 0) && LevelIs(iLevel0, ind0, goal, index)
    requires OnPath(blocks, p) && |p| <= Depth(goal, index) + 1
    ensures !m.Astray? ==> LevelIs(iLevel, ind, goal, index)
    ensures m.Over? ==> AfterPath(blocks, p, Depth(goal, index), goal, LookFor(goal, index)) == []
    ensures !m.On? ==> (m.Over? <==> AfterOk(blocks, p, Depth(goal, index), LookFor(goal, index)))
    ensures m.On? ==>
              && OnPath(blocks, m.path) && |m.path| <= Depth(goal, index) + 1
              && NodesFrom(blocks, m.path) < NodesFrom(blocks, p)
              && FromPath(blocks, m.path, Depth(goal, index), goal, LookFor(goal, index)) ==
                 AfterPath(blocks, p, Depth(goal, index), goal, LookFor(goal, index))
              && (FromOk(blocks, m.path, Depth(goal, index), LookFor(goal, index)) <==>
                  AfterOk(blocks, p, Depth(goal, index), LookFor(goal, index)))
  {
    hide Hits, Found, AllKept, LevelIs, Depth, LookFor, OnPath, Chain, BlockAt, AfterPath, FromPath, AfterOk, FromOk,
        NodesAfter;
    ghost var d, look := Depth(goal, index), LookFor(goal, index);
    var q: seq<nat> := p;
    iLevel, ind, m := iLevel0, ind0, Over;
    PathNotEmpty(blocks, q);
    while q[|q| - 1] == |Chain(blocks, q)| - 1
      invariant q != [] && OnPath(blocks, q) && |q| <= d + 1
      invariant AfterPath(blocks, q, d, goal, look) == AfterPath(blocks, p, d, goal, look)
      invariant AfterOk(blocks, q, d, look) <==> AfterOk(blocks, p, d, look)
      invariant NodesAfter(blocks, q) == NodesAfter(blocks, p)
      decreases |q|
    {
      OneUp(blocks, q, goal, index);
      if |q| == 1 { return; }
      q := q[..|q| - 1];
    }
    PathPrefix(blocks, q);
    OneOn(blocks, q, goal, index);
    q := q[..|q| - 1] + [q[|q| - 1] + 1];
    while BlockAt(blocks, q).failed
      invariant q != [] && OnPath(blocks, q) && |q| <= d + 1
      invariant FromPath(blocks, q, d, goal, look) == AfterPath(blocks, p, d, goal, look)
      invariant NodesFrom(blocks, q) <= NodesAfter(blocks, p)
      invariant if BlockAt(blocks, q).failed
                then AfterPath(blocks, q, d, goal, look) == AfterPath(blocks, p, d, goal, look) &&
                     (AfterOk(blocks, p, d, look) <==>
                      q[|q| - 1] + 1 < |Chain(blocks, q)| && AfterOk(blocks, q, d, look))
                else AfterOk(blocks, p, d, look) <==> FromOk(blocks, q, d, look)
      decreases NodesFrom(blocks, q)
    {
      if q[|q| - 1] + 1 >= |Chain(blocks, q)| {
        m := Astray;
        return;
      }
      OneOn(blocks, q, goal, index);
      q := q[..|q| - 1] + [q[|q| - 1] + 1];
    }
    m := On(q);
    if |q| == 1 {
      m, iLevel, ind := FindUsableIndex(blocks, q, goal, index);
    }
  }

  /** Looks from the block at `p0` on for a block in use whose bucket for the goal is not empty. */
  method FirstClauseSob(blocks: seq<Block>, p0: seq<nat>, goal: Keys, iLevel0: nat, ind0: int, ghost index: seq<int>)
    returns (c: Cursor, iLevel: nat, ind: int)
    requires index != [] && AllKept(blocks, index, 0) && LevelIs(iLevel0, ind0, goal, index) && iLevel0 > 0
    requires OnPath(blocks, p0) && |p0| <= Depth(goal, index) + 1
    ensures Points(blocks, c, goal, index) && (c.At? ==> LevelIs(iLevel, ind, goal, index))
    ensures Going(blocks, c, goal, index) <==> FromOk(blocks, p0, Depth(goal, index), LookFor(goal, index))
    ensures !c.Lost? ==>
              Remaining(blocks, c, goal, index) == FromPath(blocks, p0, Depth(goal, index), goal, LookFor(goal, index))
  {
    hide Hits, Found, AllKept, LevelIs, Depth, LookFor, OnPath, Chain, BlockAt, AfterPath, FromPath, AfterOk, FromOk,
        NodesAfter, NodesFrom;
    ghost var d, look := Depth(goal, index), LookFor(goal, index);
    var p := p0;
    iLevel, ind := iLevel0, ind0;
    while true
      invariant OnPath(blocks, p) && |p| <= d + 1 && LevelIs(iLevel, ind, goal, index) && iLevel > 0
      invariant FromPath(blocks, p, d, goal, look) == FromPath(blocks, p0, d, goal, look)
      invariant FromOk(blocks, p, d, look) <==> FromOk(blocks, p0, d, look)
      decreases NodesFrom(blocks, p)
    {
      LevelZero(iLevel, ind, goal, index);
      var b := BlockAt(blocks, p);
      if |p| < iLevel {
        if b.failed {
          FromFailed(blocks, p, goal, index);
          c := Lost;
          return;
        }
        Descend(blocks, p, goal, index);
        p := p + [0];
      } else {
        AtLevel(blocks, p, goal, ind, index);
        if !b.failed {
          var bucket := b.buckets[HashVal(goal, ind, |b.buckets|)];
          if bucket != [] {
            c := At(p, 0);
            assert bucket[0..] == bucket;
            return;
          }
        }
        var m, l, i := NextSob(blocks, p, goal, iLevel, ind, index);
        match m {
          case Over => c := End; return;
          case Astray => c := Lost; return;
          case On(q) => p, iLevel, ind := q, l, i; LevelZero(iLevel, ind, goal, index);
        }
      }
    }
  }

  /** At the level of the index in use. */
  lemma AtLevel(blocks: seq<Block>, p: seq<nat>, goal: Keys, ind: int, index: seq<int>)
    requires index != [] && AllKept(blocks, index, 0) && OnPath(blocks, p) && |p| == Depth(goal, index) + 1
    requires LookFor(goal, index) == ByIndex(ind) && ind in goal
    ensures var b, d, look := BlockAt(blocks, p), Depth(goal, index), LookFor(goal, index);
            && |b.buckets| > 0 && Found(b, goal, look) == b.buckets[HashVal(goal, ind, |b.buckets|)]
            && (b.failed ==> Found(b, goal, look) == [])
            && FromPath(blocks, p, d, goal, look) == Found(b, goal, look) + AfterPath(blocks, p, d, goal, look)
            && (FromOk(blocks, p, d, look) <==> AfterOk(blocks, p, d, look))
  {
    hide AllKept, OnPath, BlockAt, FromPath, AfterPath, AfterOk, Depth, LookFor;
    KeptFacts(blocks, p, index);
    AtBottom(blocks, p, Depth(goal, index), goal, LookFor(goal, index));
    if BlockAt(blocks, p).failed { NothingThere(blocks, p, goal, index); }
  }

  /** At a block with clauses. */
  lemma AtClauses(blocks: seq<Block>, p: seq<nat>, goal: Keys, index: seq<int>)
    requires index != [] && AllKept(blocks, index, 0) && OnPath(blocks, p) && |p| == |index|
    requires LookFor(goal, index) == AllChain && !BlockAt(blocks, p).failed && |index| == Depth(goal, index) + 1
    ensures var b, d := BlockAt(blocks, p), Depth(goal, index);
            && b.all != [] && Found(b, goal, AllChain) == b.all
            && FromPath(blocks, p, d, goal, AllChain) == b.all + AfterPath(blocks, p, d, goal, AllChain)
            && (FromOk(blocks, p, d, AllChain) <==> AfterOk(blocks, p, d, AllChain))
  {
    hide AllKept, OnPath, BlockAt, FromPath, AfterPath, AfterOk, Depth, LookFor;
    KeptFacts(blocks, p, index);
    AtBottom(blocks, p, Depth(goal, index), goal, AllChain);
  }

  /** Where the walk of a predicate starts. */
  lemma Starts(blocks: seq<Block>, i: nat, goal: Keys, index: seq<int>)
    requires index != [] && AllKept(blocks, index, 0) && i < |blocks|
    requires forall j :: 0 <= j < i ==> blocks[j].failed
    ensures OnPath(blocks, [i]) && BlockAt(blocks, [i]) == blocks[i]
    ensures FromPath(blocks, [i], Depth(goal, index), goal, LookFor(goal, index)) == Answers(blocks, goal, index)
    ensures !blocks[i].failed ==>
              (FromOk(blocks, [i], Depth(goal, index), LookFor(goal, index)) <==> Passes(blocks, goal, index))
  {
    var d, look := Depth(goal, index), LookFor(goal, index);
    hide Hits, AllKept, Kept, Depth, LookFor;
    assert blocks[0..] == blocks;
    SkipFailed(blocks, i, goal, index);
    if !blocks[i].failed {
      assert AfterOk(blocks, [i], d, look) <==> MoveOk(blocks, i, d, look);
      if FromOk(blocks, [i], d, look) && d > 0 {
        forall j | 0 <= j < |blocks| && !blocks[j].failed
          ensures Passable(blocks[j].kids, d - 1, look, false)
        {
          assert HereOk(blocks[j], d, look);
        }
      }
    }
  }

  lemma {:induction false} SkipFailed(blocks: seq<Block>, i: nat, goal: Keys, index: seq<int>)
    requires index != [] && AllKept(blocks, index, 0) && i <= |blocks|
    requires forall j :: 0 <= j < i ==> blocks[j].failed
    ensures Hits(blocks[i..], Depth(goal, index), goal, LookFor(goal, index)) == Answers(blocks, goal, index)
  {
    hide Hits, Kept, Depth, LookFor;
    var d, look := Depth(goal, index), LookFor(goal, index);
    if i > 0 {
      SkipFailed(blocks, i - 1, goal, index);
      assert Kept(blocks[i - 1], index, 0);
      NothingInFailed(blocks[i - 1], index, 0, goal);
      assert blocks[i - 1..] == [blocks[i - 1]] + blocks[i..];
      HitsFirst(blocks[i - 1], blocks[i..], d, goal, look);
    } else {
      assert blocks[0..] == blocks;
    }
  }

  /** The first clause for the goal. */
  method FirstClref(blocks: seq<Block>, goal: Keys, ghost index: seq<int>) returns (c: Cursor, iLevel: nat, ind: int)
    requires index != [] && AllKept(blocks, index, 0)
    ensures Points(blocks, c, goal, index) && (c.At? ==> LevelIs(iLevel, ind, goal, index))
    ensures Going(blocks, c, goal, index) <==> Passes(blocks, goal, index)
    ensures !c.Lost? ==> Remaining(blocks, c, goal, index) == Answers(blocks, goal, index)
  {
    hide Hits, AllKept, FromPath, FromOk, AfterPath, AfterOk, NodesFrom, OnPath, BlockAt, Depth, LookFor, LevelIs,
        Found;
    c, iLevel, ind := End, 0, 0;
    if blocks == [] {
      NoHits(Depth(goal, index), goal, LookFor(goal, index));
      return;
    }
    var i: nat := 0;
    while blocks[i].failed
      invariant 0 <= i < |blocks| && forall j :: 0 <= j < i ==> blocks[j].failed
      decreases |blocks| - i
    {
      i := i + 1;
      if i == |blocks| {
        c := Lost;
        return;
      }
    }
    Starts(blocks, i, goal, index);
    var m;
    m, iLevel, ind := FindUsableIndex(blocks, [i], goal, index);
    if m == Astray {
      c := Lost;
      return;
    }
    LevelZero(iLevel, ind, goal, index);
    if iLevel == 0 {
      AtClauses(blocks, m.path, goal, index);
      c := At(m.path, 0);
      assert BlockAt(blocks, m.path).all[0..] == BlockAt(blocks, m.path).all;
    } else {
      c, iLevel, ind := FirstClauseSob(blocks, m.path, goal, iLevel, ind, index);
    }
  }

  /** The chain that the lookup walks in the block at `p`: the goal's bucket or the all-chain. */
  method ChainThere(blocks: seq<Block>, p: seq<nat>, goal: Keys, iLevel: nat, ind: int, ghost index: seq<int>)
    returns (found: seq<Clause>)
    requires index != [] && AllKept(blocks, index, 0) && LevelIs(iLevel, ind, goal, index)
    requires OnPath(blocks, p) && |p| == Depth(goal, index) + 1
    ensures found == Found(BlockAt(blocks, p), goal, LookFor(goal, index))
  {
    hide AllKept, Kept, OnPath, Depth, LookFor;
    KeptFacts(blocks, p, index);
    LevelZero(iLevel, ind, goal, index);
    var b := BlockAt(blocks, p);
    if iLevel == 0 {
      found := b.all;
    } else {
      found := b.buckets[HashVal(goal, ind, |b.buckets|)];
    }
  }

  /** The first clause of the first all-chain from the block at `p0` on, without regard to blocks made to fail. */
  method FirstOfAll(blocks: seq<Block>, p0: seq<nat>, levels: nat, goal: Keys, ghost index: seq<int>)
    returns (c: Cursor)
    requires index != [] && AllKept(blocks, index, 0) && LookFor(goal, index) == AllChain && levels == |index|
    requires OnPath(blocks, p0) && |p0| <= levels && Depth(goal, index) + 1 == levels
    ensures Points(blocks, c, goal, index) && !c.End?
    ensures Going(blocks, c, goal, index) <==> FromOk(blocks, p0, Depth(goal, index), AllChain)
    ensures c.At? ==>
              Remaining(blocks, c, goal, index) == FromPath(blocks, p0, Depth(goal, index), goal, AllChain)
  {
    hide Hits, Found, AllKept, FromPath, AfterPath, NodesFrom, AfterOk, FromOk, OnPath, BlockAt, Depth, LookFor;
    var q := p0;
    while true
      invariant OnPath(blocks, q) && |q| <= levels
      invariant FromPath(blocks, q, levels - 1, goal, AllChain) == FromPath(blocks, p0, levels - 1, goal, AllChain)
      invariant FromOk(blocks, q, levels - 1, AllChain) <==> FromOk(blocks, p0, levels - 1, AllChain)
      decreases levels - |q|
    {
      if BlockAt(blocks, q).failed {
        FromFailed(blocks, q, goal, index);
        c := Lost;
        return;
      }
      if |q| == levels { break; }
      Descend(blocks, q, goal, index);
      q := q + [0];
    }
    AtClauses(blocks, q, goal, index);
    c := At(q, 0);
    assert BlockAt(blocks, q).all[0..] == BlockAt(blocks, q).all;
  }

  /** The clause after the one at `c`. */
  method NextClref(blocks: seq<Block>, c: Cursor, goal: Keys, iLevel0: nat, ind0: int, ghost index: seq<int>)
    returns (n: Cursor, iLevel: nat, ind: int)
    requires index != [] && AllKept(blocks, index, 0) && LevelIs(iLevel0, ind0, goal, index)
    requires c.At? && Points(blocks, c, goal, index)
    ensures Points(blocks, n, goal, index) && (n.At? ==> LevelIs(iLevel, ind, goal, index))
    ensures Going(blocks, n, goal, index) <==> Going(blocks, c, goal, index)
    ensures Remaining(blocks, c, goal, index) != [] &&
            Remaining(blocks, c, goal, index)[0] == ClauseAt(blocks, c, goal, index)
    ensures !n.Lost? ==> Remaining(blocks, n, goal, index) == Remaining(blocks, c, goal, index)[1..]
  {
    hide Hits, AllKept, FromPath, AfterPath, AfterOk, FromOk, NodesFrom, Found, OnPath, LevelIs, LookFor, Depth,
        BlockAt;
    LevelZero(iLevel0, ind0, goal, index);
    iLevel, ind := iLevel0, ind0;
    var found := ChainThere(blocks, c.path, goal, iLevel, ind, index);
    assert found[c.off..] == [found[c.off]] + found[c.off + 1..];
    ghost var after := AfterPath(blocks, c.path, Depth(goal, index), goal, LookFor(goal, index));
    assert (found[c.off..] + after)[1..] == found[c.off + 1..] + after;
    if c.off + 1 < |found| {
      n := At(c.path, c.off + 1);
      return;
    }
    var m, l, i := NextSob(blocks, c.path, goal, iLevel, ind, index);
    n, iLevel, ind := End, l, i;
    if m == Over { return; }
    if m == Astray {
      n := Lost;
      return;
    }
    LevelZero(iLevel, ind, goal, index);
    if iLevel == 0 {
      n := FirstOfAll(blocks, m.path, |c.path|, goal, index);
    } else {
      n, iLevel, ind := FirstClauseSob(blocks, m.path, goal, iLevel, ind, index);
    }
  }

  lemma AtEnds(blocks: seq<Block>, c: Cursor, goal: Keys, index: seq<int>)
    requires index != [] && Points(blocks, c, goal, index)
    ensures c.End? ==> Going(blocks, c, goal, index) && Remaining(blocks, c, goal, index) == []
    ensures c.Lost? ==> !Going(blocks, c, goal, index)
  {
  }

  lemma AtClause(blocks: seq<Block>, c: Cursor, goal: Keys, index: seq<int>, chain: seq<Clause>)
    requires index != [] && Points(blocks, c, goal, index) && c.At?
    ensures OnPath(blocks, c.path) && |c.path| == Depth(goal, index) + 1
    ensures chain == Found(BlockAt(blocks, c.path), goal, LookFor(goal, index)) ==>
              c.off < |chain| && chain[c.off] == ClauseAt(blocks, c, goal, index)
  {
  }

  /** All clauses found for a goal, one after the other, unless the walk leaves the blocks. */
  method FindAll(blocks: seq<Block>, goal: Keys, ghost index: seq<int>) returns (found: seq<Clause>, lost: bool)
    requires index != [] && AllKept(blocks, index, 0)
    ensures lost <==> !Passes(blocks, goal, index)
    ensures if lost then found <= Answers(blocks, goal, index) else found == Answers(blocks, goal, index)
    ensures forall c :: c in found ==> Shares(blocks, goal, index, c)
  {
    hide Shares, AllKept, Found, LevelIs, Answers, OnPath, Passes, BlockAt, Depth, LookFor, Going, Remaining, Points,
        ClauseAt;
    found := [];
    var c, iLevel, ind := FirstClref(blocks, goal, index);
    AtEnds(blocks, c, goal, index);
    while c.At?
      invariant Points(blocks, c, goal, index) && (c.At? ==> LevelIs(iLevel, ind, goal, index))
      invariant Going(blocks, c, goal, index) <==> Passes(blocks, goal, index)
      invariant c.End? ==> Going(blocks, c, goal, index) && Remaining(blocks, c, goal, index) == []
      invariant c.Lost? ==> !Going(blocks, c, goal, index)
      invariant if c.Lost? then found <= Answers(blocks, goal, index)
                else found + Remaining(blocks, c, goal, index) == Answers(blocks, goal, index)
      decreases if c.At? then 1 + |Remaining(blocks, c, goal, index)| else 0
    {
      AtClause(blocks, c, goal, index, []);
      var chain := ChainThere(blocks, c.path, goal, iLevel, ind, index);
      AtClause(blocks, c, goal, index, chain);
      ghost var left := Remaining(blocks, c, goal, index);
      ghost var before := found;
      found := found + [chain[c.off]];
      c, iLevel, ind := NextClref(blocks, c, goal, iLevel, ind, index);
      AtEnds(blocks, c, goal, index);
      assert before + left == found + left[1..];
    }
    lost := c.Lost?;
    KeptIsLaid(blocks, index, 0);
    AllShare(blocks, index, goal);
    PrefixIn(found, Answers(blocks, goal, index));
  }

  lemma KeptIsLaid(blocks: seq<Block>, index: seq<int>, level: nat)
    requires level < |index| && AllKept(blocks, index, level)
    ensures AllLaid(blocks, index, level)
  {
    hide Laid;
    forall i | 0 <= i < |blocks|
      ensures Laid(blocks[i], index, level)
    {
      assert Kept(blocks[i], index, level);
    }
  }

  lemma PrefixIn(a: seq<Clause>, b: seq<Clause>)
    requires a <= b
    ensures forall c :: c in a ==> c in b
  {
  }

  // ---------------------------------------------------------------- a block made to fail at the end of its chain

  /** The clauses p(X) and p(1), added by assertz to a predicate indexed on its first argument. */
  function TwoClauses(): (run: seq<Change>)
    ensures |run| == 2
  {
    [Assert(Clause(0, map[]), false, 17), Assert(Clause(1, map[1 := [1]]), false, 17)]
  }

  /** The block once its clauses have been retracted while a choice point was at it. */
  function Emptied(b: Block): Block {
    Block(b.ind, NoBuckets(|b.buckets|), [], [], true)
  }

  // A clause added at the end in a block of its own.
  lemma NewLast(blocks: seq<Block>, c: Clause, size: nat)
    requires size > 0 && !Index.Fits(blocks, 1, TableSize(c, 1, size), false)
    ensures var n := TableSize(c, 1, size);
            Insert(blocks, [1], 0, size, c, false) ==
            blocks + [Block(1, NoBuckets(n)[Slot(c, 1, n) := [c]], [], [c], false)]
  {
    var n := TableSize(c, 1, size);
    assert [] + [c] == [c] && NoBuckets(n)[Slot(c, 1, n)] == [];
  }

  lemma OneBlock()
    ensures Database(TwoClauses()[..1], [1]) ==
            [Block(1, [[TwoClauses()[0].clause]], [], [TwoClauses()[0].clause], false)]
  {
    var run, c := TwoClauses()[..1], TwoClauses()[0].clause;
    hide Fold, Larger;
    assert run == [TwoClauses()[0]] && run[..0] == [];
    NewLast([], c, 17);
    assert NoBuckets(1)[0 := [c]] == [[c]];
    assert HashResize([], false, 17) == 17;
  }

  lemma TwoBlocks()
    ensures var run := TwoClauses();
            var blocks := Database(run, [1]);
            && |blocks| == 2 && blocks[0] == Block(1, [[run[0].clause]], [], [run[0].clause], false)
            && blocks[1].ind == 1 && |blocks[1].buckets| == 17 && blocks[1].all == [run[1].clause]
            && blocks[1].kids == []
  {
    hide Fold, AtLeast;
    OneBlock();
    var run := TwoClauses();
    var c, b := run[0].clause, Block(1, [[run[0].clause]], [], [run[0].clause], false);
    assert [[c]][1..] == [];
    assert Nonempty(b.buckets) == 1 && Larger(1, 0) == 17;
    assert HashResize([b], false, 17) == 17;
    NewLast([b], run[1].clause, 17);
  }

  /** Retracting p(1) while a choice point is at its block leaves this block, made to fail, at the end of the chain.
      All is laid out for lookup, and p(X) is the program; but no lookup gets through. */
  lemma FailedLast()
    ensures var blocks := Database(TwoClauses(), [1]);
            && |blocks| == 2 && Clauses([blocks[1]]) == [TwoClauses()[1].clause]
            && var after := [blocks[0], Emptied(blocks[1])];
               && AllKept(after, [1], 0) && Clauses(after) == [TwoClauses()[0].clause]
               && forall goal :: !Passes(after, goal, [1])
  {
    TwoBlocks();
    hide Database, Laid;
    var blocks := Database(TwoClauses(), [1]);
    var after := [blocks[0], Emptied(blocks[1])];
    var c := TwoClauses()[0].clause;
    ClausesSingle(blocks[1]);
    assert Clauses([]) == [];
    ClausesSingle(after[0]);
    ClausesSingle(after[1]);
    assert after == [after[0]] + [after[1]];
    ClausesConcat([after[0]], [after[1]]);
    FirstLaid(after[0], c);
    EmptiedLaid(blocks[1]);
    assert !after[0].failed && after[1].failed;
  }

  lemma FirstLaid(b: Block, c: Clause)
    requires b == Block(1, [[c]], [], [c], false) && c.keys == map[]
    ensures Laid(b, [1], 0)
  {
    ClausesSingle(b);
    assert Slotted([c], 1, 1, 0) == [c] by { assert [c][1..] == []; }
  }

  lemma EmptiedLaid(b: Block)
    requires b.ind == 1 && |b.buckets| > 0
    ensures Laid(Emptied(b), [1], 0)
  {
    ClausesSingle(Emptied(b));
  }

  /** The search for p(2), run on these blocks, leaves them. */
  method FindAfterFailure() returns (found: seq<Clause>, lost: bool)
    ensures lost
  {
    hide *;
    FailedLast();
    TwoBlocks();
    var c := TwoClauses()[0].clause;
    var blocks := [Block(1, [[c]], [], [c], false), Block(1, NoBuckets(17), [], [], true)];
    EmptiedIs(Database(TwoClauses(), [1])[1]);
    assert blocks == [Database(TwoClauses(), [1])[0], Emptied(Database(TwoClauses(), [1])[1])];
    found, lost := FindAll(blocks, map[1 := [2]], [1]);
  }

  lemma EmptiedIs(b: Block)
    ensures Emptied(b) == Block(b.ind, NoBuckets(|b.buckets|), [], [], true)
  {
  }
}
