/** The try/retry/trust chains of the dynamic clause database.  The instruction of an element encodes its
    position, neighbours are linked both ways, and the ends are linked to the chain's owner. */
module Chains {

  // The instructions of a chain element.  A single element has a noop, the first of several a try.
  datatype Op = Noop | DynNoop | Try | DynTry | Retry | Trust

  datatype Link = Owner(chain: Chain) | At(elem: Elem)

  /** One element of one chain: the words before, at and after its try instruction. */
  class Elem {
    // The clause or index block to which it belongs.
    const item: Item
    var op: Op
    var prev: Link
    var next: Link
    ghost var home: Chain

    constructor (item: Item, chain: Chain)
      ensures this.item == item
    {
      this.item := item;
      op, prev, next, home := DynNoop, Owner(chain), Owner(chain), chain;
    }
  }

  /** A clause with its element in the all-chain or clause chain and those in its hash buckets, or an index block
      with its element in the chain of such blocks. */
  class Item {
    // Set while a choice point is known to refer to it.
    var marked: bool
    var elems: seq<Elem>

    constructor ()
      ensures !marked && elems == []
    {
      marked, elems := false, [];
    }
  }

  /** What matters here of an index block: its element in a chain of blocks and how many of its hash buckets are
      not empty.  A block that cannot be deleted safely is made to fail. */
  class Block {
    const own: Elem
    var nonempty: nat
    var failed: bool

    constructor (own: Elem)
      ensures this.own == own && nonempty == 0 && !failed
    {
      this.own := own;
      nonempty, failed := 0, false;
    }
  }

  // ---------------------------------------------------------------- the shape of a chain

  // What a chain holds: clauses, as hash buckets and all-chains do; index blocks; or clauses and blocks together.
  datatype Kind = OfClauses | OfBlocks | OfBoth

  /** The instruction at position `i` of a chain of `n` elements: only clauses start with a dynamic instruction. */
  ghost predicate Fits(op: Op, i: int, n: int, kind: Kind) {
    if n == 1 then (op == DynNoop && kind != OfBlocks) || (op == Noop && kind != OfClauses)
    else if i == 0 then (op == DynTry && kind != OfBlocks) || (op == Try && kind != OfClauses)
    else if i == n - 1 then op == Trust
    else op == Retry
  }

  // Whether an element of this sort may be in such a chain.
  ghost predicate Suits(block: bool, kind: Kind) {
    match kind
    case OfClauses => !block
    case OfBlocks => block
    case OfBoth => true
  }

  ghost function Before(s: seq<Elem>, ch: Chain, i: int): Link
    requires 0 <= i < |s|
  {
    if i == 0 then Owner(ch) else At(s[i - 1])
  }

  ghost function After(s: seq<Elem>, ch: Chain, i: int): Link
    requires 0 <= i < |s|
  {
    if i == |s| - 1 then Owner(ch) else At(s[i + 1])
  }

  ghost predicate LinkedAt(s: seq<Elem>, ch: Chain, kind: Kind, i: int)
    requires 0 <= i < |s|
    reads s[i]
  {
    Fits(s[i].op, i, |s|, kind) && s[i].prev == Before(s, ch, i) && s[i].next == After(s, ch, i) && s[i].home == ch
  }

  ghost predicate Distinct(s: seq<Elem>) {
    forall i, j :: 0 <= i < j < |s| ==> s[i] != s[j]
  }

  /** The elements `s`, in order, form a chain owned by `ch`. */
  ghost predicate Linked(s: seq<Elem>, ch: Chain, kind: Kind)
    reads s
  {
    Distinct(s) && forall i {:trigger LinkedAt(s, ch, kind, i)} :: 0 <= i < |s| ==> LinkedAt(s, ch, kind, i)
  }

  function Dropped(s: seq<Elem>, i: int): (r: seq<Elem>)
    requires 0 <= i < |s|
    ensures |r| == |s| - 1
    ensures forall k :: 0 <= k < |r| ==> r[k] == if k < i then s[k] else s[k + 1]
  {
    s[..i] + s[i + 1..]
  }

  ghost function Others(s: seq<Elem>, e: Elem): set<Elem> {
    set x | x in s && x != e
  }

  /** Takes the first of several elements out: the next one, `n`, becomes the first, perhaps the only one. */
  method DeleteFirst(e: Elem, n: Elem, single: Op, first: Op, ghost s: seq<Elem>, ghost ch: Chain, ghost kind: Kind)
    requires 1 < |s| && s[0] == e && s[1] == n && Linked(s, ch, kind)
    requires Fits(single, 0, 1, kind) && Fits(first, 0, 2, kind)
    modifies n`op, n`prev
    ensures Linked(Dropped(s, 0), ch, kind)
  {
    assert LinkedAt(s, ch, kind, 0) && LinkedAt(s, ch, kind, 1);
    n.prev := e.prev;
    n.op := if n.op == Retry then first else single;
    ghost var r := Dropped(s, 0);
    forall k | 0 <= k < |r|
      ensures LinkedAt(r, ch, kind, k)
    {
      assert old(LinkedAt(s, ch, kind, k + 1));
    }
  }

  /** Takes an element out between `p` and `n`. */
  method DeleteInner(e: Elem, p: Elem, n: Elem, ghost s: seq<Elem>, ghost i: int, ghost ch: Chain, ghost kind: Kind)
    requires 0 < i < |s| - 1 && s[i] == e && s[i - 1] == p && s[i + 1] == n && Linked(s, ch, kind)
    modifies n`prev, p`next
    ensures Linked(Dropped(s, i), ch, kind)
  {
    assert LinkedAt(s, ch, kind, i);
    n.prev := e.prev;
    p.next := e.next;
    ghost var r := Dropped(s, i);
    forall k | 0 <= k < |r|
      ensures LinkedAt(r, ch, kind, k)
    {
      assert old(LinkedAt(s, ch, kind, k)) && old(LinkedAt(s, ch, kind, k + 1));
    }
  }

  /** Takes the last of several elements out: the one before it, `p`, becomes the last, perhaps the only one. */
  method DeleteLast(e: Elem, p: Elem, ghost s: seq<Elem>, ghost ch: Chain, ghost kind: Kind)
    requires 1 < |s| && s[|s| - 1] == e && s[|s| - 2] == p && Linked(s, ch, kind)
    modifies p`op, p`next
    ensures Linked(Dropped(s, |s| - 1), ch, kind)
  {
    assert LinkedAt(s, ch, kind, |s| - 1) && LinkedAt(s, ch, kind, |s| - 2);
    p.next := e.next;
    p.op := if p.op == Retry then Trust else if p.op == Try then Noop else DynNoop;
    ghost var r := Dropped(s, |s| - 1);
    forall k | 0 <= k < |r|
      ensures LinkedAt(r, ch, kind, k)
    {
      assert old(LinkedAt(s, ch, kind, k));
    }
  }

  /** Takes the element `e`, number `i` of the chain `s`, out of it; `e` itself keeps its words. */
  method DeleteFromChain(e: Elem, ghost s: seq<Elem>, ghost i: int, ghost ch: Chain, ghost kind: Kind)
    requires 0 <= i < |s| && s[i] == e && Linked(s, ch, kind)
    modifies Others(s, e)`op, Others(s, e)`prev, Others(s, e)`next
    ensures Linked(Dropped(s, i), ch, kind)
  {
    assert LinkedAt(s, ch, kind, i);
    hide Linked;
    NeighboursDiffer(s, i, ch, kind);
    match e.op {
      case Noop => OnlyElement(s, ch, kind);
      case DynNoop => OnlyElement(s, ch, kind);
      case Try => DeleteFirst(e, e.next.elem, Noop, Try, s, ch, kind);
      case DynTry => DeleteFirst(e, e.next.elem, DynNoop, DynTry, s, ch, kind);
      case Retry => DeleteInner(e, e.prev.elem, e.next.elem, s, i, ch, kind);
      case Trust => DeleteLast(e, e.prev.elem, s, ch, kind);
    }
  }

  lemma NeighboursDiffer(s: seq<Elem>, i: int, ch: Chain, kind: Kind)
    requires 0 <= i < |s| && Linked(s, ch, kind)
    ensures 0 < i ==> s[i - 1] in Others(s, s[i])
    ensures i < |s| - 1 ==> s[i + 1] in Others(s, s[i])
  {
  }

  lemma OnlyElement(s: seq<Elem>, ch: Chain, kind: Kind)
    requires |s| == 1
    ensures Linked(Dropped(s, 0), ch, kind)
  {
  }

  /** Puts `e` before `f`, the first element of the chain `s`. */
  method PrefixToChain(f: Elem, e: Elem, block: bool, ghost s: seq<Elem>, ghost ch: Chain, ghost kind: Kind)
    requires |s| > 0 && s[0] == f && Linked(s, ch, kind) && e !in s && Suits(block, kind)
    modifies e, f`op, f`prev
    ensures Linked([e] + s, ch, kind) && e.op == if block then Try else DynTry
  {
    assert LinkedAt(s, ch, kind, 0);
    e.op := if block then Try else DynTry;
    e.next := At(f);
    f.op := if f.op == DynNoop || f.op == Noop then Trust else Retry;
    e.prev := f.prev;
    f.prev := At(e);
    e.home := ch;
    forall k | 0 <= k < |s| + 1
      ensures LinkedAt([e] + s, ch, kind, k)
    {
      assert k > 0 ==> old(LinkedAt(s, ch, kind, k - 1));
    }
  }

  /** Puts `e` after `l`, the last element of the chain `s`. */
  method AppendToChain(l: Elem, e: Elem, ghost s: seq<Elem>, ghost ch: Chain, ghost kind: Kind)
    requires |s| > 0 && s[|s| - 1] == l && Linked(s, ch, kind) && e !in s
    modifies e, l`op, l`next
    ensures Linked(s + [e], ch, kind)
  {
    assert LinkedAt(s, ch, kind, |s| - 1);
    e.op := Trust;
    e.next := l.next;
    e.prev := At(l);
    l.op := if l.op == DynNoop then DynTry else if l.op == Noop then Try else Retry;
    l.next := At(e);
    e.home := ch;
    forall k | 0 <= k < |s| + 1
      ensures LinkedAt(s + [e], ch, kind, k)
    {
      assert k < |s| ==> old(LinkedAt(s, ch, kind, k));
    }
  }

  /** The owner of a chain: a predicate record, the part of an index block like one, or a hash bucket. */
  class Chain {
    const kind: Kind
    // A hash bucket has no pointer to its last element.
    const bucket: bool
    var first: Elem?
    var last: Elem?
    // The index block of a hash bucket.
    const block: Block?
    ghost var s: seq<Elem>

    ghost predicate Valid()
      reads this, s
    {
      && Linked(s, this, kind)
      && first == (if s == [] then null else s[0])
      && (if bucket then kind == OfClauses else last == if s == [] then null else s[|s| - 1])
    }

    constructor (kind: Kind, bucket: bool, block: Block?)
      requires bucket ==> kind == OfClauses
      ensures this.kind == kind && this.bucket == bucket && this.block == block && s == [] && Valid()
    {
      this.kind, this.bucket, this.block := kind, bucket, block;
      first, last, s := null, null, [];
    }

    /** Adds a clause or an index block at either end of a chain with a pointer to its last element. */
    method Add(e: Elem, atFront: bool, block: bool)
      requires Valid() && !bucket && e !in s && Suits(block, kind)
      modifies this`first, this`last, this`s, e, s`op, s`prev, s`next
      ensures Valid() && s == if atFront then [e] + old(s) else old(s) + [e]
      ensures old(s) == [] ==> e.op == if block then Noop else DynNoop
      ensures old(s) != [] && atFront ==> e.op == if block then Try else DynTry
    {
      if first == null {
        e.op := if block then Noop else DynNoop;
        e.prev, e.next := Owner(this), Owner(this);
        e.home := this;
        first, last := e, e;
        s := [e];
        assert LinkedAt(s, this, kind, 0);
      } else if atFront {
        PrefixToChain(first, e, block, s, this, kind);
        first := e;
        s := [e] + s;
      } else {
        AppendToChain(last, e, s, this, kind);
        last := e;
        s := s + [e];
      }
    }

    /** Adds a clause at either end of a hash bucket, whose last element has to be searched for; a bucket that was
        empty counts for its block from now on. */
    method AddToBucket(e: Elem, atFront: bool)
      requires Valid() && bucket && e !in s && block != null
      modifies this`first, this`s, e, s`op, s`prev, s`next, block`nonempty
      ensures Valid() && s == if atFront then [e] + old(s) else old(s) + [e]
      ensures block.nonempty == old(block.nonempty) + if old(s) == [] then 1 else 0
    {
      if first == null {
        e.op := DynNoop;
        e.prev, e.next := Owner(this), Owner(this);
        e.home := this;
        first := e;
        block.nonempty := block.nonempty + 1;
        s := [e];
        assert LinkedAt(s, this, kind, 0);
      } else if atFront {
        PrefixToChain(first, e, false, s, this, kind);
        first := e;
        s := [e] + s;
      } else {
        var l := first;
        ghost var i := 0;
        assert LinkedAt(s, this, kind, 0);
        if l.op != DynNoop {
          while l.op != Trust
            invariant 0 <= i < |s| && l == s[i] && LinkedAt(s, this, kind, i)
            decreases |s| - i
          {
            l := l.next.elem;
            i := i + 1;
            assert LinkedAt(s, this, kind, i);
          }
        }
        AppendToChain(l, e, s, this, kind);
        s := s + [e];
      }
    }
  }

  /** The instruction tells where in its chain an element is. */
  lemma PositionKnown(s: seq<Elem>, i: int, ch: Chain, kind: Kind)
    requires 0 <= i < |s| && Linked(s, ch, kind)
    ensures s[i].prev == Before(s, ch, i) && s[i].next == After(s, ch, i)
    ensures s[i].op in {Noop, DynNoop} <==> |s| == 1
    ensures s[i].op in {Try, DynTry} <==> |s| > 1 && i == 0
    ensures s[i].op == Trust <==> |s| > 1 && i == |s| - 1
  {
    assert LinkedAt(s, ch, kind, i);
  }

  /** NextSOB takes a trust or a noop for the end of a chain of blocks, and there it is; next_clref takes whatever is no
      dynamic try or retry for the end of a chain of clauses. */
  lemma EndKnown(ch: Chain, i: int)
    requires ch.Valid() && 0 <= i < |ch.s|
    ensures ch.kind == OfBlocks ==> (ch.s[i].op in {Trust, Noop} <==> i == |ch.s| - 1)
    ensures ch.kind == OfClauses ==> (ch.s[i].op !in {DynTry, Retry} <==> i == |ch.s| - 1)
    ensures ch.s[i].next == if i == |ch.s| - 1 then Owner(ch) else At(ch.s[i + 1])
  {
    PositionKnown(ch.s, i, ch, ch.kind);
    assert LinkedAt(ch.s, ch, ch.kind, i);
  }

  /** Deletes an element, number `i` of its chain `ch`; where the chain's owner has to learn of it, it is found at
      the end link. */
  method Delete(e: Elem, ghost ch: Chain, ghost i: int)
    requires ch.Valid() && 0 <= i < |ch.s| && ch.s[i] == e
    modifies ch`first, ch`last, ch`s, Others(ch.s, e)`op, Others(ch.s, e)`prev, Others(ch.s, e)`next
    ensures ch.Valid() && ch.s == Dropped(old(ch.s), i)
  {
    hide Linked, LinkedAt, Fits;
    PositionKnown(ch.s, i, ch, ch.kind);
    DeleteFromChain(e, ch.s, i, ch, ch.kind);
    match e.op {
      case DynNoop => e.prev.chain.first, e.prev.chain.last := null, null;
      case Noop => e.prev.chain.first, e.prev.chain.last := null, null;
      case DynTry => e.prev.chain.first := e.next.elem;
      case Try => e.prev.chain.first := e.next.elem;
      case Trust => if !e.next.chain.bucket { e.next.chain.last := e.prev.elem; }
      case Retry =>
    }
    ch.s := Dropped(ch.s, i);
  }
}
