/** Indexed dynamic predicates: clauses are hashed, level by level, into the buckets of index blocks, and a lookup
    walks the blocks.  Chains are sequences here; their linked form is the matter of module Chains. */
module Index {

  // What is hashed at an index: one value for a plain index, several for a joint one.
  type Key = seq<nat>

  // The indexes at which a clause head or a goal is bound, with their keys.
  type Keys = map<int, Key>

  datatype Clause = Clause(id: int, keys: Keys)

  /** An index block: a table of hash buckets for one index and, below it, either more blocks or all its clauses.  A
      block left without clauses that cannot be deleted safely is made to fail. */
  datatype Block = Block(ind: int, buckets: seq<seq<Clause>>, kids: seq<Block>, all: seq<Clause>, failed: bool)

  function Fold(key: Key, size: nat): nat
    requires size > 0
  {
    if key == [] then 0 else 2 * Fold(key[..|key| - 1], size) + key[|key| - 1] % size
  }

  /** The bucket for a key, or -1 for a variable. */
  function HashVal(keys: Keys, ind: int, size: nat): (h: int)
    requires size > 0
    ensures h < size && (h >= 0 <==> ind in keys) && h >= -1
  {
    if ind in keys then Fold(keys[ind], size) % size else -1
  }

  function Power(n: nat): nat {
    if n == 0 then 1 else 2 * Power(n - 1)
  }

  /** The sum of the numbers of a key, each reduced to the table size and weighted by a power of two, the first one
      highest. */
  ghost function Weighted(key: Key, size: nat): nat
    requires size > 0
  {
    if key == [] then 0 else Power(|key| - 1) * (key[0] % size) + Weighted(key[1..], size)
  }

  lemma {:induction false} WeightedLast(key: Key, k: nat, size: nat)
    requires size > 0
    ensures Weighted(key + [k], size) == 2 * Weighted(key, size) + k % size
  {
    if key != [] {
      assert (key + [k])[1..] == key[1..] + [k] && (key + [k])[0] == key[0];
      WeightedLast(key[1..], k, size);
      var p, x := Power(|key| - 1), key[0] % size;
      assert Power(|key|) * x == 2 * (p * x) by { assert Power(|key|) == 2 * p; }
    } else {
      assert ([] + [k])[1..] == [];
    }
  }

  /** What is hashed: the weighted sum for a joint index, and for a plain one the number itself. */
  lemma {:induction false} FoldIsWeighted(key: Key, size: nat)
    requires size > 0
    ensures Fold(key, size) == Weighted(key, size)
    ensures |key| == 1 ==> Fold(key, size) == key[0] % size
  {
    if key != [] {
      var n := |key| - 1;
      FoldIsWeighted(key[..n], size);
      WeightedLast(key[..n], key[n], size);
      assert key[..n] + [key[n]] == key;
    }
  }

  /** The bucket of a bound key is its weighted sum modulo the table size; a variable has none. */
  lemma HashValIs(keys: Keys, ind: int, size: nat)
    requires size > 0
    ensures HashVal(keys, ind, size) == if ind in keys then Weighted(keys[ind], size) % size else -1
    ensures ind in keys && |keys[ind]| == 1 ==> HashVal(keys, ind, size) == keys[ind][0] % size
  {
    if ind in keys {
      FoldIsWeighted(keys[ind], size);
      if |keys[ind]| == 1 { assert (keys[ind][0] % size) % size == keys[ind][0] % size; }
    }
  }

  const HashSizes: seq<nat> := [17, 389, 6151, 49157, 196613, 393241, 786433, 1572869,
                                3145739, 6291469, 12582917, 25165843, 50331653, 50331653, 50331653, 50331653]

  function Nonempty(buckets: seq<seq<Clause>>): nat {
    if buckets == [] then 0 else (if buckets[0] == [] then 0 else 1) + Nonempty(buckets[1..])
  }

  /** The least table size of the list, from number `i` on, that is larger than `size`, or the largest there is. */
  function Larger(size: nat, i: nat): (r: nat)
    requires i < 16
    ensures r > 0 && r in HashSizes && (size < HashSizes[15] ==> r > size)
    ensures forall k :: i <= k < 16 && HashSizes[k] > size ==> r <= HashSizes[k]
    decreases 16 - i
  {
    if HashSizes[i] > size || i == 15 then HashSizes[i] else Larger(size, i + 1)
  }

  function AtLeast(size: nat, i: nat): (r: nat)
    requires i < 16
    ensures r > 0 && r in HashSizes && (size <= HashSizes[15] ==> r >= size)
    ensures forall k :: i <= k < 16 && HashSizes[k] >= size ==> r <= HashSizes[k]
    decreases 16 - i
  {
    if HashSizes[i] >= size || i == 15 then HashSizes[i] else AtLeast(size, i + 1)
  }

  function Max(a: nat, b: nat): nat {
    if a > b then a else b
  }

  /** `size` is what a table of `n` buckets grows to. */
  ghost predicate NextSize(size: nat, n: nat) {
    if n >= HashSizes[15] then size == n + 2
    else size in HashSizes && size > n && forall k :: 0 <= k < 16 && HashSizes[k] > n ==> size <= HashSizes[k]
  }

  /** The table size for the next clause, given the block at the end where it goes. */
  function HashResize(blocks: seq<Block>, front: bool, wanted: nat): (size: nat)
    requires forall b :: b in blocks ==> |b.buckets| > 0
    ensures size > 0 && (blocks != [] || wanted <= HashSizes[15] ==> size >= wanted)
    ensures blocks == [] ==>
              size in HashSizes && forall k :: 0 <= k < 16 && HashSizes[k] >= wanted ==> size <= HashSizes[k]
    ensures blocks != [] ==>
              var last := if front then blocks[0] else blocks[|blocks| - 1];
              var n := |last.buckets|;
              if Nonempty(last.buckets) <= n / 4 * 3 then size >= n && (size == n || size == wanted)
              else size > n && (size == wanted || NextSize(size, n))
  {
    if blocks == [] then AtLeast(wanted, 0) else
      var last := if front then blocks[0] else blocks[|blocks| - 1];
      var size := |last.buckets|;
      if Nonempty(last.buckets) > size / 4 * 3
      then Max(if size >= HashSizes[15] then size + 2 else Larger(size, 0), wanted)
      else Max(size, wanted)
  }

  function Add(s: seq<Clause>, c: Clause, front: bool): seq<Clause> {
    if front then [c] + s else s + [c]
  }

  function AddBlock(s: seq<Block>, b: Block, front: bool): seq<Block> {
    if front then [b] + s else s + [b]
  }

  function NoBuckets(n: nat): (s: seq<seq<Clause>>)
    ensures |s| == n && forall i :: 0 <= i < n ==> s[i] == []
  {
    seq(n, i => [])
  }

  /** The block at one end of a chain, if it is for the index `ind` with a table of `n` buckets. */
  predicate Fits(blocks: seq<Block>, ind: int, n: nat, front: bool) {
    blocks != [] && var e := if front then blocks[0] else blocks[|blocks| - 1]; |e.buckets| == n && e.ind == ind
  }

  function Target(blocks: seq<Block>, ind: int, n: nat, front: bool): Block {
    if !Fits(blocks, ind, n, front) then Block(ind, NoBuckets(n), [], [], false)
    else if front then blocks[0] else blocks[|blocks| - 1]
  }

  function Others(blocks: seq<Block>, ind: int, n: nat, front: bool): seq<Block> {
    if !Fits(blocks, ind, n, front) then blocks else if front then blocks[1..] else blocks[..|blocks| - 1]
  }

  function TableSize(c: Clause, ind: int, size: nat): (n: nat)
    requires size > 0
    ensures n > 0
  {
    if HashVal(c.keys, ind, size) == -1 then 1 else size
  }

  function Slot(c: Clause, ind: int, size: nat): (h: nat)
    requires size > 0
    ensures h < size
  {
    if HashVal(c.keys, ind, size) == -1 then 0 else HashVal(c.keys, ind, size)
  }

  /** Adds `c` at one end of a chain of blocks for `index[level..]`, to the block there or to a new one.  Where `c`
      has a variable the table has one bucket, and so has every table below. */
  function Insert(blocks: seq<Block>, index: seq<int>, level: nat, size: nat, c: Clause, front: bool): seq<Block>
    requires level < |index| && size > 0
    decreases |index| - level, 1
  {
    var ind := index[level];
    var n := TableSize(c, ind, size);
    AddBlock(Others(blocks, ind, n, front), Fill(Target(blocks, ind, n, front), index, level, n, c, front), front)
  }

  function Fill(b: Block, index: seq<int>, level: nat, n: nat, c: Clause, front: bool): Block
    requires level < |index| && n > 0 && |b.buckets| == n
    decreases |index| - level, 0
  {
    var h := Slot(c, index[level], n);
    var hashed := b.(buckets := b.buckets[h := Add(b.buckets[h], c, front)]);
    if level + 1 < |index| then hashed.(kids := Insert(b.kids, index, level + 1, n, c, front))
    else hashed.(all := Add(b.all, c, front))
  }

  // ---------------------------------------------------------------- program order

  /** All clauses of the blocks, in program order. */
  function Clauses(blocks: seq<Block>): seq<Clause> {
    if blocks == [] then [] else blocks[0].all + Clauses(blocks[0].kids) + Clauses(blocks[1..])
  }

  /** The clauses of `s` that hash to bucket `h`. */
  function Slotted(s: seq<Clause>, ind: int, size: nat, h: nat): seq<Clause>
    requires size > 0
  {
    if s == [] then [] else (if Slot(s[0], ind, size) == h then [s[0]] else []) + Slotted(s[1..], ind, size, h)
  }

  /** The block is laid out for the index `index[level]`: each bucket holds, in program order, the clauses that
      hash to it, and clauses with a variable there are in tables of one bucket. */
  ghost predicate Right(b: Block, index: seq<int>, level: nat)
    requires level < |index|
    decreases b, 1
  {
    && b.ind == index[level] && |b.buckets| > 0 && !b.failed
    && (if level + 1 < |index| then b.all == [] && b.kids != [] && AllRight(b.kids, index, level + 1)
        else b.kids == [] && b.all != [])
    && (forall h :: 0 <= h < |b.buckets| ==> b.buckets[h] == Slotted(Clauses([b]), b.ind, |b.buckets|, h))
    && (forall c :: c in Clauses([b]) && b.ind !in c.keys ==> |b.buckets| == 1)
  }

  ghost predicate AllRight(blocks: seq<Block>, index: seq<int>, level: nat)
    requires level < |index|
    decreases blocks, 0
  {
    forall i :: 0 <= i < |blocks| ==> Right(blocks[i], index, level)
  }

  lemma {:induction false} ClausesConcat(a: seq<Block>, b: seq<Block>)
    ensures Clauses(a + b) == Clauses(a) + Clauses(b)
  {
    if a == [] {
      assert a + b == b;
    } else {
      assert (a + b)[0] == a[0] && (a + b)[1..] == a[1..] + b;
      ClausesConcat(a[1..], b);
    }
  }

  lemma SlottedStep(s: seq<Clause>, ind: int, size: nat, h: nat)
    requires size > 0
    ensures s == [] ==> Slotted(s, ind, size, h) == []
    ensures s != [] ==>
              Slotted(s, ind, size, h) ==
              (if Slot(s[0], ind, size) == h then [s[0]] else []) + Slotted(s[1..], ind, size, h)
  {
    hide Slot;
  }

  lemma {:induction false} SlottedConcat(a: seq<Clause>, b: seq<Clause>, ind: int, size: nat, h: nat)
    requires size > 0
    ensures Slotted(a + b, ind, size, h) == Slotted(a, ind, size, h) + Slotted(b, ind, size, h)
  {
    hide Slot, Slotted;
    SlottedStep(a, ind, size, h);
    if a == [] {
      assert a + b == b;
    } else {
      SlottedStep(a + b, ind, size, h);
      assert (a + b)[0] == a[0] && (a + b)[1..] == a[1..] + b;
      SlottedConcat(a[1..], b, ind, size, h);
    }
  }

  lemma SlottedAdd(s: seq<Clause>, c: Clause, front: bool, ind: int, size: nat, h: nat)
    requires size > 0
    ensures Slotted(Add(s, c, front), ind, size, h) ==
            if Slot(c, ind, size) == h then Add(Slotted(s, ind, size, h), c, front) else Slotted(s, ind, size, h)
  {
    SlottedConcat([c], s, ind, size, h);
    SlottedConcat(s, [c], ind, size, h);
    assert [c][1..] == [];
  }

  lemma ClausesSingle(b: Block)
    ensures Clauses([b]) == b.all + Clauses(b.kids)
  {
    assert [b][1..] == [];
  }

  /** A block for the index, perhaps still without clauses. */
  ghost predicate Started(b: Block, index: seq<int>, level: nat)
    requires level < |index|
  {
    && b.ind == index[level] && |b.buckets| > 0 && !b.failed
    && (if level + 1 < |index| then b.all == [] && AllRight(b.kids, index, level + 1) else b.kids == [])
    && (forall h :: 0 <= h < |b.buckets| ==> b.buckets[h] == Slotted(Clauses([b]), b.ind, |b.buckets|, h))
    && (forall c :: c in Clauses([b]) && b.ind !in c.keys ==> |b.buckets| == 1)
  }

  lemma BucketsRight(b: Block, b2: Block, c: Clause, front: bool)
    requires |b.buckets| > 0 && b2.ind == b.ind && Clauses([b2]) == Add(Clauses([b]), c, front)
    requires forall h :: 0 <= h < |b.buckets| ==> b.buckets[h] == Slotted(Clauses([b]), b.ind, |b.buckets|, h)
    requires var h := Slot(c, b.ind, |b.buckets|); b2.buckets == b.buckets[h := Add(b.buckets[h], c, front)]
    ensures forall h :: 0 <= h < |b2.buckets| ==> b2.buckets[h] == Slotted(Clauses([b2]), b2.ind, |b2.buckets|, h)
  {
    forall h | 0 <= h < |b2.buckets|
      ensures b2.buckets[h] == Slotted(Clauses([b2]), b2.ind, |b2.buckets|, h)
    {
      SlottedAdd(Clauses([b]), c, front, b.ind, |b.buckets|, h);
    }
  }

  lemma {:induction false} FillRight(b: Block, index: seq<int>, level: nat, n: nat, c: Clause, front: bool)
    requires level < |index| && Started(b, index, level) && |b.buckets| == n && (index[level] !in c.keys ==> n == 1)
    ensures var r := Fill(b, index, level, n, c, front);
            Right(r, index, level) && Clauses([r]) == Add(Clauses([b]), c, front)
    decreases |index| - level, 0
  {
    hide Clauses, AllRight, Insert, Slotted;
    var r := Fill(b, index, level, n, c, front);
    ClausesSingle(b);
    ClausesSingle(r);
    NoClauses();
    if level + 1 < |index| { InsertRight(b.kids, index, level + 1, n, c, front); }
    BucketsRight(b, r, c, front);
  }

  /** A clause goes to the block at the end if that is for this index and has a table of the right size, which is one
      bucket for a clause with a variable there; otherwise it gets a new block. */
  lemma InsertWhere(blocks: seq<Block>, index: seq<int>, level: nat, size: nat, c: Clause, front: bool)
    requires level < |index| && size > 0
    ensures var r := Insert(blocks, index, level, size, c, front);
            var n := if index[level] in c.keys then size else 1;
            var k := if front then 0 else |blocks| - 1;
            if blocks != [] && blocks[k].ind == index[level] && |blocks[k].buckets| == n
            then |r| == |blocks| && (if front then r[1..] == blocks[1..] else r[..k] == blocks[..k])
            else |r| == |blocks| + 1 && (if front then r[1..] == blocks else r[..k + 1] == blocks)
  {
    hide Fill, Fold;
  }

  lemma NoClauses()
    ensures Clauses([]) == []
  {
  }

  lemma NewBlock(index: seq<int>, level: nat, n: nat)
    requires level < |index| && n > 0
    ensures Started(Block(index[level], NoBuckets(n), [], [], false), index, level)
    ensures Clauses([Block(index[level], NoBuckets(n), [], [], false)]) == []
  {
    ClausesSingle(Block(index[level], NoBuckets(n), [], [], false));
  }

  lemma AddBlockClauses(rest: seq<Block>, b: Block, front: bool)
    ensures Clauses(AddBlock(rest, b, front)) == if front then Clauses([b]) + Clauses(rest)
            else Clauses(rest) + Clauses([b])
  {
    ClausesConcat([b], rest);
    ClausesConcat(rest, [b]);
  }

  lemma TargetStarted(blocks: seq<Block>, index: seq<int>, level: nat, n: nat, front: bool)
    requires level < |index| && n > 0 && AllRight(blocks, index, level)
    ensures var b, rest := Target(blocks, index[level], n, front), Others(blocks, index[level], n, front);
            && Started(b, index, level) && |b.buckets| == n && AllRight(rest, index, level)
            && Clauses(blocks) == if front then Clauses([b]) + Clauses(rest) else Clauses(rest) + Clauses([b])
  {
    var b, rest := Target(blocks, index[level], n, front), Others(blocks, index[level], n, front);
    if Fits(blocks, index[level], n, front) {
      assert Right(b, index, level);
      AddBlockClauses(rest, b, front);
      assert blocks == AddBlock(rest, b, front);
    } else {
      NewBlock(index, level, n);
    }
  }

  lemma AddBlockRight(rest: seq<Block>, b: Block, index: seq<int>, level: nat, front: bool)
    requires level < |index| && AllRight(rest, index, level) && Right(b, index, level)
    ensures AllRight(AddBlock(rest, b, front), index, level)
  {
    hide Right;
  }

  /** Adding a clause adds it at the same end of the program, and keeps all blocks right. */
  lemma {:induction false} InsertRight(blocks: seq<Block>, index: seq<int>, level: nat, size: nat, c: Clause,
                                       front: bool)
    requires level < |index| && size > 0 && AllRight(blocks, index, level)
    ensures var r := Insert(blocks, index, level, size, c, front);
            AllRight(r, index, level) && r != [] && Clauses(r) == Add(Clauses(blocks), c, front)
    decreases |index| - level, 1
  {
    hide Fill, Right, Clauses, AllRight, Started, Target, Others, Fits;
    var ind := index[level];
    var n := TableSize(c, ind, size);
    var b, rest := Target(blocks, ind, n, front), Others(blocks, ind, n, front);
    TargetStarted(blocks, index, level, n, front);
    FillRight(b, index, level, n, c, front);
    var b2 := Fill(b, index, level, n, c, front);
    AddBlockClauses(rest, b2, front);
    AddBlockRight(rest, b2, index, level, front);
  }
}
