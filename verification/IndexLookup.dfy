/** Looking clauses up through the index blocks, one after the other: the clauses found are part of the program in
    program order, and none that could match is missing. */
module IndexLookup {
  import opened Index

  // ---------------------------------------------------------------- what is found

  // Look in the buckets for one index, or at all clauses.
  datatype Look = ByIndex(ind: int) | AllChain

  function Found(b: Block, goal: Keys, look: Look): seq<Clause> {
    match look
    case AllChain => b.all
    case ByIndex(ind) =>
      if |b.buckets| == 0 then [] else
        var h := HashVal(goal, ind, |b.buckets|);
        if h < 0 then [] else b.buckets[h]
  }

  /** What is found in blocks `depth` levels below these. */
  function Hits(blocks: seq<Block>, depth: nat, goal: Keys, look: Look): seq<Clause>
    decreases blocks
  {
    if blocks == [] then []
    else (if depth == 0 then Found(blocks[0], goal, look) else Hits(blocks[0].kids, depth - 1, goal, look))
         + Hits(blocks[1..], depth, goal, look)
  }

  /** The first index at which the goal is bound. */
  function Usable(goal: Keys, index: seq<int>, level: nat): (l: nat)
    requires level <= |index|
    ensures level <= l <= |index|
    ensures l < |index| ==> index[l] in goal
    ensures forall i :: level <= i < l ==> index[i] !in goal
    decreases |index| - level
  {
    if level == |index| || index[level] in goal then level else Usable(goal, index, level + 1)
  }

  function Depth(goal: Keys, index: seq<int>): (d: nat)
    requires index != []
    ensures d < |index|
  {
    if Usable(goal, index, 0) < |index| then Usable(goal, index, 0) else |index| - 1
  }

  function LookFor(goal: Keys, index: seq<int>): Look {
    var l := Usable(goal, index, 0);
    if l < |index| then ByIndex(index[l]) else AllChain
  }

  /** All clauses that a lookup finds, in order. */
  function Answers(blocks: seq<Block>, goal: Keys, index: seq<int>): seq<Clause>
    requires index != []
  {
    Hits(blocks, Depth(goal, index), goal, LookFor(goal, index))
  }

  // ---------------------------------------------------------------- what should be found

  predicate Agrees(c: Clause, goal: Keys, index: seq<int>) {
    forall i :: 0 <= i < |index| && index[i] in c.keys && index[i] in goal ==> c.keys[index[i]] == goal[index[i]]
  }

  /** The clauses whose heads may match the goal, as far as the indexed arguments tell. */
  function Matching(s: seq<Clause>, goal: Keys, index: seq<int>): seq<Clause> {
    if s == [] then []
    else if Agrees(s[0], goal, index) then [s[0]] + Matching(s[1..], goal, index) else Matching(s[1..], goal, index)
  }

  /** `a` is `s` with some clauses left out. */
  ghost predicate Part(a: seq<Clause>, s: seq<Clause>)
    decreases s
  {
    if s == [] then a == []
    else Part(a, s[1..]) || (a != [] && a[0] == s[0] && Part(a[1..], s[1..]))
  }

  lemma {:induction false} PartAll(s: seq<Clause>)
    ensures Part(s, s)
  {
    if s != [] { PartAll(s[1..]); }
  }

  lemma {:induction false} PartConcat(a: seq<Clause>, s: seq<Clause>, b: seq<Clause>, t: seq<Clause>)
    requires Part(a, s) && Part(b, t)
    ensures Part(a + b, s + t)
    decreases s
  {
    if s == [] {
      assert a + b == b && s + t == t;
    } else {
      assert (s + t)[0] == s[0] && (s + t)[1..] == s[1..] + t;
      if Part(a, s[1..]) {
        PartConcat(a, s[1..], b, t);
      } else {
        assert (a + b)[0] == a[0] && (a + b)[1..] == a[1..] + b;
        PartConcat(a[1..], s[1..], b, t);
      }
    }
  }

  /** A part of a sequence repeats nothing that the sequence does not repeat. */
  lemma {:induction false} PartCounts(a: seq<Clause>, s: seq<Clause>)
    requires Part(a, s)
    ensures multiset(a) <= multiset(s)
    decreases s
  {
    if s != [] {
      assert s == [s[0]] + s[1..];
      if Part(a, s[1..]) {
        PartCounts(a, s[1..]);
      } else {
        assert a == [a[0]] + a[1..];
        PartCounts(a[1..], s[1..]);
      }
    }
  }

  lemma {:induction false} MatchingConcat(a: seq<Clause>, b: seq<Clause>, goal: Keys, index: seq<int>)
    ensures Matching(a + b, goal, index) == Matching(a, goal, index) + Matching(b, goal, index)
  {
    if a == [] {
      assert a + b == b;
    } else {
      assert (a + b)[0] == a[0] && (a + b)[1..] == a[1..] + b;
      MatchingConcat(a[1..], b, goal, index);
    }
  }

  /** The bucket for the goal's key is part of the block's clauses and lacks none that agrees with the goal. */
  lemma SlotAgrees(c: Clause, goal: Keys, index: seq<int>, level: nat, size: nat)
    requires level < |index| && index[level] in goal && size > 0 && (index[level] !in c.keys ==> size == 1)
    requires Agrees(c, goal, index)
    ensures Slot(c, index[level], size) == HashVal(goal, index[level], size)
  {
    hide Fold;
  }

  lemma {:induction false} BucketComplete(s: seq<Clause>, goal: Keys, index: seq<int>, level: nat, size: nat)
    requires level < |index| && index[level] in goal && size > 0
    requires forall c :: c in s && index[level] !in c.keys ==> size == 1
    ensures var f := Slotted(s, index[level], size, HashVal(goal, index[level], size));
            Part(f, s) && Matching(f, goal, index) == Matching(s, goal, index)
  {
    if s != [] {
      var h := HashVal(goal, index[level], size);
      var f := Slotted(s[1..], index[level], size, h);
      hide Slot, HashVal, Agrees;
      BucketComplete(s[1..], goal, index, level, size);
      assert s[0] in s;
      if Slot(s[0], index[level], size) == h {
        assert Slotted(s, index[level], size, h) == [s[0]] + f;
        assert ([s[0]] + f)[1..] == f;
      } else {
        assert Slotted(s, index[level], size, h) == f;
        assert !Agrees(s[0], goal, index) by {
          if Agrees(s[0], goal, index) { SlotAgrees(s[0], goal, index, level, size); }
        }
      }
    }
  }

  /** What a lookup needs to know of a block: each bucket holds, in program order, the clauses that hash to it, and
      clauses with a variable at the index are in tables of one bucket.  Blocks may be empty. */
  ghost predicate Laid(b: Block, index: seq<int>, level: nat)
    requires level < |index|
    decreases b, 1
  {
    && b.ind == index[level] && |b.buckets| > 0
    && (if level + 1 < |index| then b.all == [] && AllLaid(b.kids, index, level + 1) else b.kids == [])
    && (forall h :: 0 <= h < |b.buckets| ==> b.buckets[h] == Slotted(Clauses([b]), b.ind, |b.buckets|, h))
    && (forall c :: c in Clauses([b]) && b.ind !in c.keys ==> |b.buckets| == 1)
  }

  ghost predicate AllLaid(blocks: seq<Block>, index: seq<int>, level: nat)
    requires level < |index|
    decreases blocks, 0
  {
    forall i :: 0 <= i < |blocks| ==> Laid(blocks[i], index, level)
  }

  lemma {:induction false} RightIsLaid(blocks: seq<Block>, index: seq<int>, level: nat)
    requires level < |index| && AllRight(blocks, index, level)
    ensures AllLaid(blocks, index, level)
    decreases |index| - level
  {
    forall i | 0 <= i < |blocks|
      ensures Laid(blocks[i], index, level)
    {
      assert Right(blocks[i], index, level);
      if level + 1 < |index| { RightIsLaid(blocks[i].kids, index, level + 1); }
    }
  }

  /** What is found under one block. */
  lemma FoundComplete(b: Block, goal: Keys, index: seq<int>, level: nat)
    requires level < |index| && Laid(b, index, level) && level == Depth(goal, index)
    ensures var f := Found(b, goal, LookFor(goal, index));
            Part(f, Clauses([b])) && Matching(f, goal, index) == Matching(Clauses([b]), goal, index)
  {
    ClausesSingle(b);
    if LookFor(goal, index) == AllChain {
      assert Clauses([b]) == b.all;
      PartAll(b.all);
    } else {
      var s := Clauses([b]);
      BucketComplete(s, goal, index, level, |b.buckets|);
      assert b.buckets[HashVal(goal, b.ind, |b.buckets|)] ==
             Slotted(s, b.ind, |b.buckets|, HashVal(goal, b.ind, |b.buckets|));
    }
  }

  lemma KidsLaid(b: Block, index: seq<int>, level: nat)
    requires level + 1 < |index| && Laid(b, index, level)
    ensures AllLaid(b.kids, index, level + 1) && b.all == []
  {
  }

  lemma NoneFound(depth: nat, goal: Keys, index: seq<int>)
    ensures Part(Hits([], depth, goal, LookFor(goal, index)), Clauses([]))
    ensures Matching(Hits([], depth, goal, LookFor(goal, index)), goal, index) == Matching(Clauses([]), goal, index)
  {
  }

  lemma {:induction false} HitsComplete(blocks: seq<Block>, level: nat, goal: Keys, index: seq<int>)
    requires index != [] && level <= Depth(goal, index) && AllLaid(blocks, index, level)
    ensures var f := Hits(blocks, Depth(goal, index) - level, goal, LookFor(goal, index));
            Part(f, Clauses(blocks)) && Matching(f, goal, index) == Matching(Clauses(blocks), goal, index)
    decreases blocks
  {
    hide Laid, Clauses, Part, Matching;
    if blocks != [] {
      var d, look := Depth(goal, index) - level, LookFor(goal, index);
      var b, rest := blocks[0], blocks[1..];
      var f := if d == 0 then Found(b, goal, look) else Hits(b.kids, d - 1, goal, look);
      ClausesSingle(b);
      if d == 0 {
        FoundComplete(b, goal, index, level);
      } else {
        KidsLaid(b, index, level);
        HitsComplete(b.kids, level + 1, goal, index);
        assert b.all + Clauses(b.kids) == Clauses(b.kids);
      }
      assert blocks == [b] + rest;
      ClausesConcat([b], rest);
      HitsComplete(rest, level, goal, index);
      PartConcat(f, Clauses([b]), Hits(rest, d, goal, look), Clauses(rest));
      MatchingConcat(f, Hits(rest, d, goal, look), goal, index);
      MatchingConcat(Clauses([b]), Clauses(rest), goal, index);
    } else {
      NoneFound(Depth(goal, index) - level, goal, index);
    }
  }

  // ---------------------------------------------------------------- what a lookup leaves out

  /** The clause is in a block, `depth` levels below these, whose table has `n` buckets. */
  ghost predicate InTable(blocks: seq<Block>, depth: nat, c: Clause, n: nat)
    decreases blocks
  {
    exists i :: 0 <= i < |blocks| &&
                if depth == 0 then |blocks[i].buckets| == n && c in Clauses([blocks[i]])
                else InTable(blocks[i].kids, depth - 1, c, n)
  }

  lemma InRest(blocks: seq<Block>, depth: nat, c: Clause, n: nat)
    requires blocks != [] && InTable(blocks[1..], depth, c, n)
    ensures InTable(blocks, depth, c, n)
  {
    var i :| 0 <= i < |blocks[1..]| &&
             if depth == 0 then |blocks[1..][i].buckets| == n && c in Clauses([blocks[1..][i]])
             else InTable(blocks[1..][i].kids, depth - 1, c, n);
    assert blocks[1..][i] == blocks[i + 1];
  }

  lemma {:induction false} SlottedOnly(s: seq<Clause>, ind: int, size: nat, h: nat, c: Clause)
    requires size > 0 && c in Slotted(s, ind, size, h)
    ensures c in s && Slot(c, ind, size) == h
  {
    if Slot(s[0], ind, size) != h || c != s[0] {
      assert c in Slotted(s[1..], ind, size, h);
      SlottedOnly(s[1..], ind, size, h, c);
    }
  }

  /** Two keys that share a bucket of a table of `n`: their weighted sums are congruent modulo `n`. */
  ghost predicate Congruent(a: Key, b: Key, n: nat) {
    n > 0 && Weighted(a, n) % n == Weighted(b, n) % n
  }

  lemma ModTwice(x: nat, n: nat)
    requires n > 0
    ensures (x % n) % n == x % n && (x < n ==> x % n == x)
  {
  }

  lemma CongruentNumbers(a: Key, b: Key, n: nat)
    requires |a| == |b| == 1 && n > 0
    ensures Congruent(a, b, n) <==> a[0] % n == b[0] % n
    ensures a[0] < n && b[0] < n ==> (Congruent(a, b, n) <==> a == b)
  {
    hide Fold, Weighted;
    FoldIsWeighted(a, n);
    FoldIsWeighted(b, n);
    ModTwice(a[0], n);
    ModTwice(b[0], n);
    assert a == [a[0]] && b == [b[0]];
  }

  /** What is found in a block shares the goal's bucket. */
  lemma FoundShares(b: Block, goal: Keys, ind: int, index: seq<int>, level: nat, c: Clause)
    requires level < |index| && Laid(b, index, level) && b.ind == ind && ind in goal
    requires c in Found(b, goal, ByIndex(ind))
    ensures c in Clauses([b]) && (ind in c.keys ==> Congruent(c.keys[ind], goal[ind], |b.buckets|))
  {
    hide Fold, Weighted, Clauses;
    var n := |b.buckets|;
    var h := HashVal(goal, ind, n);
    assert b.buckets[h] == Slotted(Clauses([b]), ind, n, h);
    SlottedOnly(Clauses([b]), ind, n, h, c);
    HashValIs(goal, ind, n);
    HashValIs(c.keys, ind, n);
  }

  lemma {:induction false} HitsShare(blocks: seq<Block>, level: nat, goal: Keys, index: seq<int>, ind: int, c: Clause)
    returns (n: nat)
    requires index != [] && level <= Depth(goal, index) && AllLaid(blocks, index, level)
    requires LookFor(goal, index) == ByIndex(ind)
    requires c in Hits(blocks, Depth(goal, index) - level, goal, ByIndex(ind))
    ensures InTable(blocks, Depth(goal, index) - level, c, n)
    ensures ind in goal && (ind in c.keys ==> Congruent(c.keys[ind], goal[ind], n))
    decreases blocks
  {
    hide Laid, Clauses, Found, Congruent, LookFor, Depth, InTable, AllLaid, Hits;
    var d := Depth(goal, index) - level;
    if blocks == [] { NothingHit(d, goal, ByIndex(ind), c); }
    var b, rest := blocks[0], blocks[1..];
    HitsParts(blocks, d, goal, ByIndex(ind), c);
    LooksAt(goal, index, ind);
    AllLaidParts(blocks, index, level);
    if c !in Hits(rest, d, goal, ByIndex(ind)) {
      if d == 0 {
        FoundShares(b, goal, ind, index, level, c);
        n := |b.buckets|;
      } else {
        KidsLaid(b, index, level);
        n := HitsShare(b.kids, level + 1, goal, index, ind, c);
      }
      InFirst(blocks, d, c, n);
    } else {
      n := HitsShare(rest, level, goal, index, ind, c);
      InRest(blocks, d, c, n);
    }
  }

  lemma LooksAt(goal: Keys, index: seq<int>, ind: int)
    requires index != [] && LookFor(goal, index) == ByIndex(ind)
    ensures ind in goal && index[Depth(goal, index)] == ind
    ensures forall i :: 0 <= i < Depth(goal, index) ==> index[i] !in goal
  {
  }

  lemma NothingHit(d: nat, goal: Keys, look: Look, c: Clause)
    ensures c !in Hits([], d, goal, look)
  {
  }

  lemma HitsParts(blocks: seq<Block>, d: nat, goal: Keys, look: Look, c: Clause)
    requires blocks != [] && c in Hits(blocks, d, goal, look)
    ensures c in Hits(blocks[1..], d, goal, look) ||
            c in (if d == 0 then Found(blocks[0], goal, look) else Hits(blocks[0].kids, d - 1, goal, look))
  {
    hide Found;
  }

  lemma AllLaidParts(blocks: seq<Block>, index: seq<int>, level: nat)
    requires level < |index| && AllLaid(blocks, index, level) && blocks != []
    ensures Laid(blocks[0], index, level) && blocks[0].ind == index[level] && AllLaid(blocks[1..], index, level)
  {
    hide Clauses, Slotted;
  }

  lemma InFirst(blocks: seq<Block>, depth: nat, c: Clause, n: nat)
    requires blocks != []
    requires if depth == 0 then |blocks[0].buckets| == n && c in Clauses([blocks[0]])
             else InTable(blocks[0].kids, depth - 1, c, n)
    ensures InTable(blocks, depth, c, n)
  {
  }

  /** What a lookup leaves out: every clause found that is bound at the index in use has a key there congruent to the
      goal's, modulo the size of its table. */
  lemma AnswersShare(blocks: seq<Block>, index: seq<int>, goal: Keys, ind: int, c: Clause) returns (n: nat)
    requires index != [] && AllLaid(blocks, index, 0) && LookFor(goal, index) == ByIndex(ind)
    requires c in Answers(blocks, goal, index)
    ensures ind in goal && InTable(blocks, Depth(goal, index), c, n)
    ensures ind in c.keys ==> Congruent(c.keys[ind], goal[ind], n)
  {
    n := HitsShare(blocks, 0, goal, index, ind, c);
  }

  /** If the clause is bound at the index in use, its key there is congruent to the goal's, modulo the size of a table
      in which it is. */
  ghost predicate Shares(blocks: seq<Block>, goal: Keys, index: seq<int>, c: Clause)
    requires index != []
  {
    match LookFor(goal, index)
    case AllChain => true
    case ByIndex(ind) =>
      ind in goal &&
      (ind in c.keys ==> exists n :: InTable(blocks, Depth(goal, index), c, n) && Congruent(c.keys[ind], goal[ind], n))
  }

  lemma AllShare(blocks: seq<Block>, index: seq<int>, goal: Keys)
    requires index != [] && AllLaid(blocks, index, 0)
    ensures forall c :: c in Answers(blocks, goal, index) ==> Shares(blocks, goal, index, c)
  {
    hide AllLaid, Answers, InTable, Congruent, LookFor, Depth;
    forall c | c in Answers(blocks, goal, index)
      ensures Shares(blocks, goal, index, c)
    {
      match LookFor(goal, index)
      case AllChain =>
      case ByIndex(ind) =>
        var n := AnswersShare(blocks, index, goal, ind, c);
        assert InTable(blocks, Depth(goal, index), c, n);
    }
  }

  // ---------------------------------------------------------------- leaving a clause out

  function Less(s: seq<Clause>, c: Clause): seq<Clause> {
    if s == [] then [] else if s[0] == c then Less(s[1..], c) else [s[0]] + Less(s[1..], c)
  }

  lemma {:induction false} LessConcat(a: seq<Clause>, b: seq<Clause>, c: Clause)
    ensures Less(a + b, c) == Less(a, c) + Less(b, c)
  {
    if a == [] {
      assert a + b == b;
    } else {
      assert (a + b)[0] == a[0] && (a + b)[1..] == a[1..] + b;
      LessConcat(a[1..], b, c);
    }
  }

  lemma {:induction false} SlottedLess(s: seq<Clause>, ind: int, size: nat, h: nat, c: Clause)
    requires size > 0
    ensures Slotted(Less(s, c), ind, size, h) == Less(Slotted(s, ind, size, h), c)
  {
    if s != [] {
      SlottedLess(s[1..], ind, size, h, c);
      var rest, slotted := Less(s[1..], c), Slotted(s[1..], ind, size, h);
      assert ([s[0]] + rest)[1..] == rest && ([s[0]] + slotted)[1..] == slotted;
      assert [] + slotted == slotted;
      assert [] + Slotted(rest, ind, size, h) == Slotted(rest, ind, size, h);
    }
  }

  lemma {:induction false} LessIn(s: seq<Clause>, c: Clause)
    ensures forall x :: x in Less(s, c) ==> x in s
  {
    if s != [] {
      LessIn(s[1..], c);
      assert s == [s[0]] + s[1..];
    }
  }

  lemma {:induction false} SlottedHas(s: seq<Clause>, ind: int, size: nat, c: Clause)
    requires size > 0 && c in s
    ensures c in Slotted(s, ind, size, Slot(c, ind, size))
  {
    if s[0] != c { SlottedHas(s[1..], ind, size, c); }
  }

  /** The block without the clause. */
  function Thinned(b: Block, c: Clause): Block
    decreases b, 1
  {
    b.(buckets := LessEach(b.buckets, c), kids := Without(b.kids, c), all := Less(b.all, c))
  }

  function LessEach(buckets: seq<seq<Clause>>, c: Clause): (r: seq<seq<Clause>>)
    ensures |r| == |buckets| && forall i :: 0 <= i < |r| ==> r[i] == Less(buckets[i], c)
  {
    seq(|buckets|, i requires 0 <= i < |buckets| => Less(buckets[i], c))
  }

  /** Retracting a clause with no choice point in the way: it goes out of all buckets, and the blocks that it leaves
      without nonempty buckets go as well. */
  function Without(blocks: seq<Block>, c: Clause): seq<Block>
    decreases blocks, 0
  {
    if blocks == [] then []
    else (if Nonempty(Thinned(blocks[0], c).buckets) == 0 then [] else [Thinned(blocks[0], c)]) +
         Without(blocks[1..], c)
  }

  lemma {:induction false} NonemptyIff(buckets: seq<seq<Clause>>)
    ensures Nonempty(buckets) == 0 <==> forall i :: 0 <= i < |buckets| ==> buckets[i] == []
  {
    if buckets != [] {
      NonemptyIff(buckets[1..]);
      assert buckets == [buckets[0]] + buckets[1..];
    }
  }

  lemma ThinnedBuckets(b: Block, c: Clause)
    requires |b.buckets| > 0
    requires forall h :: 0 <= h < |b.buckets| ==> b.buckets[h] == Slotted(Clauses([b]), b.ind, |b.buckets|, h)
    requires forall x :: x in Clauses([b]) && b.ind !in x.keys ==> |b.buckets| == 1
    requires Clauses([Thinned(b, c)]) == Less(Clauses([b]), c)
    ensures var r := Thinned(b, c);
            && (forall h :: 0 <= h < |r.buckets| ==> r.buckets[h] == Slotted(Clauses([r]), r.ind, |r.buckets|, h))
            && (forall x :: x in Clauses([r]) && r.ind !in x.keys ==> |r.buckets| == 1)
  {
    hide Without, Less, Slotted, Clauses;
    forall h | 0 <= h < |b.buckets|
      ensures Less(b.buckets[h], c) == Slotted(Less(Clauses([b]), c), b.ind, |b.buckets|, h)
    {
      SlottedLess(Clauses([b]), b.ind, |b.buckets|, h, c);
    }
    LessIn(Clauses([b]), c);
  }

  /** What is left of a block is right unless no bucket is left. */
  lemma {:induction false} ThinnedRight(b: Block, index: seq<int>, level: nat, c: Clause)
    requires level < |index| && Right(b, index, level)
    ensures Clauses([Thinned(b, c)]) == Less(Clauses([b]), c)
    ensures if Nonempty(Thinned(b, c).buckets) == 0 then Clauses([Thinned(b, c)]) == []
            else Right(Thinned(b, c), index, level)
    decreases b, 1
  {
    hide Clauses, Slotted, AllRight, Without, Less, Nonempty;
    var r := Thinned(b, c);
    ClausesSingle(b);
    ClausesSingle(r);
    NoClauses();
    NoneLess(c);
    if level + 1 < |index| {
      WithoutRight(b.kids, index, level + 1, c);
      assert [] + Clauses(b.kids) == Clauses(b.kids) && [] + Clauses(r.kids) == Clauses(r.kids);
    } else {
      NothingBelow(c);
      assert b.all + [] == b.all && r.all + [] == r.all;
    }
    ThinnedBuckets(b, c);
    NonemptyIff(r.buckets);
    EmptyIffBuckets(r);
  }

  lemma NoneLess(c: Clause)
    ensures Less([], c) == []
  {
  }

  lemma NothingBelow(c: Clause)
    ensures Without([], c) == []
  {
  }

  lemma EmptyIffBuckets(b: Block)
    requires |b.buckets| > 0
    requires forall h :: 0 <= h < |b.buckets| ==> b.buckets[h] == Slotted(Clauses([b]), b.ind, |b.buckets|, h)
    ensures Clauses([b]) == [] <==> forall h :: 0 <= h < |b.buckets| ==> b.buckets[h] == []
  {
    var s := Clauses([b]);
    if s != [] {
      var h := Slot(s[0], b.ind, |b.buckets|);
      SlottedHas(s, b.ind, |b.buckets|, s[0]);
      assert b.buckets[h] != [];
    }
  }

  lemma EmptyIff(b: Block, index: seq<int>, level: nat)
    requires level < |index| && Laid(b, index, level)
    ensures Clauses([b]) == [] <==> forall h :: 0 <= h < |b.buckets| ==> b.buckets[h] == []
  {
    EmptyIffBuckets(b);
  }

  /** Retracting a clause takes it out of the program and keeps all blocks right. */
  lemma {:induction false} WithoutRight(blocks: seq<Block>, index: seq<int>, level: nat, c: Clause)
    requires level < |index| && AllRight(blocks, index, level)
    ensures AllRight(Without(blocks, c), index, level)
    ensures Clauses(Without(blocks, c)) == Less(Clauses(blocks), c)
    decreases blocks, 0
  {
    hide Right, Clauses, Less, Nonempty, Thinned;
    if blocks == [] {
      NoClauses();
      NoneLess(c);
    } else {
      var b, rest := blocks[0], blocks[1..];
      assert Right(blocks[0], index, level);
      ThinnedRight(b, index, level, c);
      WithoutRight(rest, index, level, c);
      assert blocks == [b] + rest;
      ClausesConcat([b], rest);
      LessConcat(Clauses([b]), Clauses(rest), c);
      if Nonempty(Thinned(b, c).buckets) == 0 {
        assert [] + Without(rest, c) == Without(rest, c);
      } else {
        ClausesConcat([Thinned(b, c)], Without(rest, c));
      }
    }
  }

  // ---------------------------------------------------------------- runs of assert and retract

  // One change: an assert of a clause, whether it goes first, and the table size asked for; or a retract, with no
  // choice point in the way.
  datatype Change = Assert(clause: Clause, front: bool, wanted: nat) | Retract(clause: Clause)

  function AssertClause(blocks: seq<Block>, index: seq<int>, a: Change): seq<Block>
    requires index != [] && a.Assert? && forall b :: b in blocks ==> |b.buckets| > 0
  {
    Insert(blocks, index, 0, HashResize(blocks, a.front, a.wanted), a.clause, a.front)
  }

  /** The program: the clauses in the order that asserta and assertz give them, without those retracted. */
  function Program(run: seq<Change>): seq<Clause> {
    if run == [] then [] else
      var before, a := Program(run[..|run| - 1]), run[|run| - 1];
      if a.Assert? then Add(before, a.clause, a.front) else Less(before, a.clause)
  }

  lemma RightBuckets(blocks: seq<Block>, index: seq<int>)
    requires index != [] && AllRight(blocks, index, 0)
    ensures forall b :: b in blocks ==> |b.buckets| > 0
  {
    forall b | b in blocks
      ensures |b.buckets| > 0
    {
      var i :| 0 <= i < |blocks| && blocks[i] == b;
      assert Right(blocks[i], index, 0);
    }
  }

  function Database(run: seq<Change>, index: seq<int>): (blocks: seq<Block>)
    requires index != []
    ensures AllRight(blocks, index, 0) && Clauses(blocks) == Program(run)
  {
    if run == [] then [] else
      var before := Database(run[..|run| - 1], index);
      var a := run[|run| - 1];
      if a.Assert? then
        RightBuckets(before, index);
        InsertRight(before, index, 0, HashResize(before, a.front, a.wanted), a.clause, a.front);
        AssertClause(before, index, a)
      else
        WithoutRight(before, index, 0, a.clause);
        Without(before, a.clause)
  }

  /** A lookup finds part of the clauses, in order and without repetition, and of those that agree with the goal it
      finds all. */
  lemma AnswersComplete(blocks: seq<Block>, index: seq<int>, goal: Keys)
    requires index != [] && AllLaid(blocks, index, 0)
    ensures var found := Answers(blocks, goal, index);
            && Part(found, Clauses(blocks)) && multiset(found) <= multiset(Clauses(blocks))
            && Matching(found, goal, index) == Matching(Clauses(blocks), goal, index)
  {
    hide Part, Matching, AllLaid, Clauses, Hits;
    HitsComplete(blocks, 0, goal, index);
    PartCounts(Answers(blocks, goal, index), Clauses(blocks));
  }

  // ---------------------------------------------------------------- the first index

  /** Clauses bound at the first index are in tables of at least 17 buckets. */
  ghost predicate Wide(blocks: seq<Block>, ind: int) {
    forall i, c :: 0 <= i < |blocks| && c in Clauses([blocks[i]]) && ind in c.keys ==> |blocks[i].buckets| >= 17
  }

  lemma LargeEnough(size: nat, i: nat)
    requires i < 16
    ensures Larger(size, i) >= 17 && AtLeast(size, i) >= 17
    decreases 16 - i
  {
    if i < 15 { LargeEnough(size, i + 1); }
  }

  lemma {:induction false} SomeNonempty(buckets: seq<seq<Clause>>, i: nat)
    requires i < |buckets| && buckets[i] != []
    ensures Nonempty(buckets) > 0
  {
    NonemptyIff(buckets);
  }

  lemma RightAt(blocks: seq<Block>, index: seq<int>, k: nat)
    requires index != [] && AllRight(blocks, index, 0) && k < |blocks|
    ensures Right(blocks[k], index, 0)
  {
  }

  lemma SmallInUse(b: Block, index: seq<int>)
    requires index != [] && Right(b, index, 0) && |b.buckets| == 1
    ensures Nonempty(b.buckets) > 0
  {
    HasClauses(b, index, 0);
    EmptyIffBuckets(b);
    SomeNonempty(b.buckets, 0);
  }

  /** A table of one bucket is full, so the next clause that is bound gets a larger one. */
  lemma {:induction false} ResizedWide(blocks: seq<Block>, index: seq<int>, front: bool, wanted: nat)
    requires index != [] && AllRight(blocks, index, 0) && forall b :: b in blocks ==> |b.buckets| > 0
    requires forall i :: 0 <= i < |blocks| ==> |blocks[i].buckets| == 1 || |blocks[i].buckets| >= 17
    ensures HashResize(blocks, front, wanted) >= 17
  {
    hide AllRight, Right, Nonempty;
    LargeEnough(wanted, 0);
    if blocks != [] {
      var k := if front then 0 else |blocks| - 1;
      RightAt(blocks, index, k);
      LargeEnough(|blocks[k].buckets|, 0);
      if |blocks[k].buckets| == 1 { SmallInUse(blocks[k], index); }
    }
  }

  lemma {:induction false} HasClauses(b: Block, index: seq<int>, level: nat)
    requires level < |index| && Right(b, index, level)
    ensures Clauses([b]) != []
    decreases b
  {
    ClausesSingle(b);
    if level + 1 < |index| {
      assert Right(b.kids[0], index, level + 1);
      HasClauses(b.kids[0], index, level + 1);
      assert b.kids == [b.kids[0]] + b.kids[1..];
      ClausesConcat([b.kids[0]], b.kids[1..]);
    }
  }

  // The sizes of the tables for the first index.
  ghost predicate Sizes(blocks: seq<Block>) {
    forall i :: 0 <= i < |blocks| ==> |blocks[i].buckets| == 1 || |blocks[i].buckets| >= 17
  }

  lemma InsertedWide(blocks: seq<Block>, index: seq<int>, size: nat, c: Clause, front: bool)
    requires index != [] && size >= 17 && AllRight(blocks, index, 0) && Sizes(blocks) && Wide(blocks, index[0])
    ensures var r := Insert(blocks, index, 0, size, c, front); Sizes(r) && Wide(r, index[0])
  {
    hide Right, Clauses, Fill, HashVal;
    var ind := index[0];
    var n := TableSize(c, ind, size);
    var b, rest := Target(blocks, ind, n, front), Others(blocks, ind, n, front);
    TargetStarted(blocks, index, 0, n, front);
    FillRight(b, index, 0, n, c, front);
    var r := Fill(b, index, 0, n, c, front);
    FilledSize(b, index, 0, n, c, front);
    SizeIs(c, ind, size);
    OldInTarget(blocks, ind, n, front);
    AddedIn(Clauses([b]), c, front);
    assert Wide([r], ind) && Sizes([r]);
    assert Wide(rest, ind) && Sizes(rest);
  }

  lemma AddedIn(s: seq<Clause>, c: Clause, front: bool)
    ensures forall x :: x in Add(s, c, front) <==> x in s || x == c
  {
  }

  lemma SizeIs(c: Clause, ind: int, size: nat)
    requires size > 0
    ensures TableSize(c, ind, size) == if ind in c.keys then size else 1
  {
    hide Fold;
  }

  lemma FilledSize(b: Block, index: seq<int>, level: nat, n: nat, c: Clause, front: bool)
    requires level < |index| && n > 0 && |b.buckets| == n
    ensures |Fill(b, index, level, n, c, front).buckets| == n
  {
    hide Insert, Slot;
  }

  lemma OldInTarget(blocks: seq<Block>, ind: int, n: nat, front: bool)
    requires Wide(blocks, ind) && Sizes(blocks)
    ensures Wide(Others(blocks, ind, n, front), ind) && Sizes(Others(blocks, ind, n, front))
    ensures forall c :: c in Clauses([Target(blocks, ind, n, front)]) && ind in c.keys ==>
              |Target(blocks, ind, n, front).buckets| >= 17
  {
    ClausesSingle(Block(ind, NoBuckets(n), [], [], false));
    assert Clauses([]) == [];
    hide Clauses;
    if Fits(blocks, ind, n, front) {
      var k := if front then 0 else |blocks| - 1;
      assert Target(blocks, ind, n, front) == blocks[k];
    }
  }

  lemma {:induction false} ThinnedWide(blocks: seq<Block>, index: seq<int>, c: Clause)
    requires index != [] && AllRight(blocks, index, 0) && Sizes(blocks) && Wide(blocks, index[0])
    ensures Sizes(Without(blocks, c)) && Wide(Without(blocks, c), index[0])
    decreases |blocks|
  {
    hide Right, Clauses, Thinned, Nonempty, Less;
    if blocks != [] {
      var b, rest := blocks[0], blocks[1..];
      assert Right(blocks[0], index, 0);
      ThinnedRight(b, index, 0, c);
      LessIn(Clauses([b]), c);
      ThinnedSize(b, c);
      assert Sizes(rest) && Wide(rest, index[0]);
      ThinnedWide(rest, index, c);
    }
  }

  lemma ThinnedSize(b: Block, c: Clause)
    ensures |Thinned(b, c).buckets| == |b.buckets|
  {
  }

  lemma {:induction false} DatabaseWide(run: seq<Change>, index: seq<int>)
    requires index != []
    ensures Sizes(Database(run, index)) && Wide(Database(run, index), index[0])
    decreases |run|
  {
    hide Right, Clauses, Insert, Without, AllRight, HashResize;
    if run != [] {
      var before, a := Database(run[..|run| - 1], index), run[|run| - 1];
      DatabaseWide(run[..|run| - 1], index);
      if a.Assert? {
        RightBuckets(before, index);
        ResizedWide(before, index, a.front, a.wanted);
        InsertedWide(before, index, HashResize(before, a.front, a.wanted), a.clause, a.front);
      } else {
        ThinnedWide(before, index, a.clause);
      }
    }
  }

  /** After any run, a lookup at the first index finds, of the clauses bound there, only those with a key congruent to
      the goal's modulo a table size of at least 17. */
  lemma FirstIndexShares(run: seq<Change>, index: seq<int>, goal: Keys, c: Clause) returns (n: nat)
    requires index != [] && index[0] in goal && c in Answers(Database(run, index), goal, index)
    ensures n >= 17 && (index[0] in c.keys ==> Congruent(c.keys[index[0]], goal[index[0]], n))
  {
    hide AllRight, Congruent, Answers, InTable;
    var blocks := Database(run, index);
    RightIsLaid(blocks, index, 0);
    DatabaseWide(run, index);
    assert LookFor(goal, index) == ByIndex(index[0]) && Depth(goal, index) == 0;
    n := AnswersShare(blocks, index, goal, index[0], c);
    if index[0] in c.keys { WideTable(blocks, index[0], c, n); } else { n := 17; }
  }

  lemma WideTable(blocks: seq<Block>, ind: int, c: Clause, n: nat)
    requires Wide(blocks, ind) && InTable(blocks, 0, c, n) && ind in c.keys
    ensures n >= 17
  {
    hide Clauses;
  }

  /** Numbers below 17 at the only index are never confused: a lookup finds exactly the clauses of the program with the
      goal's number or a variable there, in program order. */
  lemma SmallNumbersExact(run: seq<Change>, ind: int, goal: Keys)
    requires ind in goal && |goal[ind]| == 1 && goal[ind][0] < 17
    requires forall c :: c in Program(run) && ind in c.keys ==> |c.keys[ind]| == 1 && c.keys[ind][0] < 17
    ensures Answers(Database(run, [ind]), goal, [ind]) == Matching(Program(run), goal, [ind])
  {
    hide Part, Matching, Clauses, Answers, Congruent;
    var found := Answers(Database(run, [ind]), goal, [ind]);
    LookupRefinesSearch(run, [ind], goal);
    forall c | c in found
      ensures Agrees(c, goal, [ind])
    {
      assert multiset(found)[c] > 0;
      var n := FirstIndexShares(run, [ind], goal, c);
      if ind in c.keys { CongruentNumbers(c.keys[ind], goal[ind], n); }
    }
    AllMatch(found, goal, [ind]);
  }

  lemma {:induction false} AllMatch(s: seq<Clause>, goal: Keys, index: seq<int>)
    requires forall c :: c in s ==> Agrees(c, goal, index)
    ensures Matching(s, goal, index) == s
  {
    if s != [] {
      assert s[0] in s && forall c :: c in s[1..] ==> c in s;
      AllMatch(s[1..], goal, index);
    }
  }

  /** With p(1) and p(2), in buckets of their own, a lookup for p(2) finds p(2) alone. */
  lemma TwoNumbers()
    ensures var one, two := Clause(1, map[1 := [1]]), Clause(2, map[1 := [2]]);
            Answers(Database([Assert(one, false, 17), Assert(two, false, 17)], [1]), map[1 := [2]], [1]) == [two]
  {
    hide Database, Answers, HashVal;
    var one, two := Clause(1, map[1 := [1]]), Clause(2, map[1 := [2]]);
    var run := [Assert(one, false, 17), Assert(two, false, 17)];
    AddedLast(run);
    AddedLast(run[..1]);
    assert run[..1] == [run[0]] && run[..1][..0] == [] && Program([]) == [];
    assert Program(run[..1]) == [] + [one] && Program(run) == [one] + [two] == [one, two];
    var goal: Keys := map[1 := [2]];
    SmallNumbersExact(run, 1, goal);
    TwoMatched(one, two);
    assert Answers(Database(run, [1]), goal, [1]) == Matching(Program(run), goal, [1]) == [two];
  }

  lemma AddedLast(run: seq<Change>)
    requires run != [] && run[|run| - 1].Assert? && !run[|run| - 1].front
    ensures Program(run) == Program(run[..|run| - 1]) + [run[|run| - 1].clause]
  {
  }

  lemma TwoMatched(one: Clause, two: Clause)
    requires one.keys == map[1 := [1]] && two.keys == map[1 := [2]]
    ensures Matching([one, two], map[1 := [2]], [1]) == [two]
  {
    var goal: Keys := map[1 := [2]];
    var index: seq<int> := [1];
    assert index[0] in one.keys && index[0] in goal && one.keys[index[0]][0] != goal[index[0]][0];
    assert Agrees(two, goal, index) && !Agrees(one, goal, index);
    assert [one, two][1..] == [two] && [two][1..] == [];
    assert Matching([], goal, index) == [];
    assert Matching([two], goal, index) == [two];
    assert Matching([one, two], goal, index) == [two];
  }

  /** Indexed lookup refines linear search: after any run of asserta, assertz and retract, what a lookup finds is part
      of the program, in order and without repetition, and of the clauses that agree with the goal it finds exactly
      those that a search of the whole program finds. */
  lemma LookupRefinesSearch(run: seq<Change>, index: seq<int>, goal: Keys)
    requires index != []
    ensures var found := Answers(Database(run, index), goal, index);
            && Part(found, Program(run)) && multiset(found) <= multiset(Program(run))
            && Matching(found, goal, index) == Matching(Program(run), goal, index)
  {
    hide Part, Matching, Clauses, Answers;
    RightIsLaid(Database(run, index), index, 0);
    AnswersComplete(Database(run, index), index, goal);
  }
}
