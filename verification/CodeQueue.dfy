/** What the assert compiler keeps while it generates code: a queue of instructions in a ring, and the registers
    in use with the list of the free ones. */
module CodeQueue {

  datatype Option<T> = None | Some(value: T)

  const QueueSize: nat := 256
  const QueueStart: nat := 10

  /** The entries of a ring from `b` up to `t`. */
  ghost function Between<T>(ring: seq<T>, b: nat, t: nat): (s: seq<T>)
    requires b < |ring| && t < |ring|
    ensures |s| == if b <= t then t - b else |ring| - b + t
  {
    if b <= t then ring[b..t] else ring[b..] + ring[..t]
  }

  function Succ(i: nat, n: nat): nat {
    if i + 1 == n then 0 else i + 1
  }

  function Pred(i: nat, n: nat): nat
    requires n > 0
  {
    if i == 0 then n - 1 else i - 1
  }

  lemma TakeBottom<T>(ring: seq<T>, b: nat, t: nat)
    requires b < |ring| && t < |ring| && b != t
    ensures Between(ring, b, t) == [ring[b]] + Between(ring, Succ(b, |ring|), t)
  {
    var s, r := Between(ring, b, t), [ring[b]] + Between(ring, Succ(b, |ring|), t);
    assert |s| == |r|;
    forall i | 0 <= i < |s|
      ensures s[i] == r[i]
    {
      if i > 0 { assert r[i] == Between(ring, Succ(b, |ring|), t)[i - 1]; }
    }
  }

  lemma PutTop<T>(ring: seq<T>, b: nat, t: nat, e: T)
    requires b < |ring| && t < |ring| && Succ(t, |ring|) != b
    ensures Between(ring[t := e], b, Succ(t, |ring|)) == Between(ring, b, t) + [e]
  {
    var r := ring[t := e];
    if t + 1 == |ring| {
      assert r[b..] + r[..0] == ring[b..t] + [e];
    } else if b <= t {
      assert r[b..t + 1] == ring[b..t] + [e];
    } else {
      assert r[..t + 1] == ring[..t] + [e] && r[b..] == ring[b..];
    }
  }

  lemma TakeTop<T>(ring: seq<T>, b: nat, t: nat)
    requires b < |ring| && t < |ring| && b != t
    ensures var u := Pred(t, |ring|); Between(ring, b, t) == Between(ring, b, u) + [ring[u]]
  {
    var u := Pred(t, |ring|);
    assert ring[u := ring[u]] == ring;
    PutTop(ring, b, u, ring[u]);
  }

  lemma PutBottom<T>(ring: seq<T>, b: nat, t: nat, e: T)
    requires b < |ring| && t < |ring| && Pred(b, |ring|) != t
    ensures var u := Pred(b, |ring|); Between(ring[u := e], u, t) == [e] + Between(ring, b, t)
  {
    var u := Pred(b, |ring|);
    var r := ring[u := e];
    TakeBottom(r, u, t);
    hide Between;
    NotBetween(ring, b, t, u, e);
  }

  /** A change outside the entries leaves them alone. */
  lemma NotBetween<T>(ring: seq<T>, b: nat, t: nat, u: nat, e: T)
    requires b < |ring| && t < |ring| && u < |ring| && if b <= t then u < b || t <= u else t <= u < b
    ensures Between(ring[u := e], b, t) == Between(ring, b, t)
  {
    var s, r := Between(ring[u := e], b, t), Between(ring, b, t);
    forall i | 0 <= i < |r|
      ensures s[i] == r[i]
    {
    }
  }

  lemma RotateNone<T>(s: seq<T>)
    ensures Rotated(s, 0) == s
  {
  }

  function Rotated<T>(s: seq<T>, k: nat): (r: seq<T>)
    requires k <= |s|
    ensures |r| == |s|
  {
    s[k..] + s[..k]
  }

  lemma RotateOnce<T>(s: seq<T>, k: nat)
    requires k < |s|
    ensures Rotated(s, k)[1..] + [Rotated(s, k)[0]] == Rotated(s, k + 1)
  {
    assert s[k..] == [s[k]] + s[k + 1..];
    assert s[..k + 1] == s[..k] + [s[k]];
  }

  class Queue<T(0)> {
    const ring: array<T>
    var top: nat
    var bottom: nat
    var added: int

    ghost predicate Valid()
      reads this`top, this`bottom
    {
      ring.Length == QueueSize && top < QueueSize && bottom < QueueSize
    }

    /** The entries from the bottom to the top. */
    ghost function Contents(): (s: seq<T>)
      requires Valid()
      reads this`top, this`bottom, ring
      ensures |s| == if bottom <= top then top - bottom else QueueSize - bottom + top
    {
      Between(ring[..], bottom, top)
    }

    constructor ()
      ensures Valid() && Contents() == [] && bottom == QueueStart && fresh(ring)
    {
      ring := new T[QueueSize];
      top, bottom, added := QueueStart, QueueStart, 0;
    }

    method Empty() returns (r: bool)
      requires Valid()
      ensures r <==> Contents() == []
    {
      r := top == bottom;
    }

    /** Puts an entry at the top; fails when the ring is full. */
    method Push(e: T) returns (ok: bool)
      requires Valid()
      modifies this`top, ring
      ensures Valid() && (ok <==> |old(Contents())| < QueueSize - 1)
      ensures ok ==> Contents() == old(Contents()) + [e]
      ensures top == (old(top) + 1) % QueueSize
    {
      if Succ(top, QueueSize) != bottom { PutTop(ring[..], bottom, top, e); }
      ring[top] := e;
      top := (top + 1) % QueueSize;
      ok := top != bottom;
    }

    /** Takes the entry at the top. */
    method Pop() returns (e: T)
      requires Valid() && Contents() != []
      modifies this`top
      ensures Valid() && old(Contents()) == Contents() + [e]
    {
      TakeTop(ring[..], bottom, top);
      if top == 0 { top := QueueSize; }
      top := top - 1;
      e := ring[top];
    }

    /** Takes the entry at the bottom. */
    method Rem() returns (e: T)
      requires Valid() && Contents() != []
      modifies this`bottom
      ensures Valid() && old(Contents()) == [e] + Contents()
      ensures bottom == (old(bottom) + 1) % QueueSize
    {
      TakeBottom(ring[..], bottom, top);
      e := ring[bottom];
      bottom := (bottom + 1) % QueueSize;
    }

    /** Puts an entry at the bottom and counts it; fails when the ring is full. */
    method Add(e: T) returns (ok: bool)
      requires Valid()
      modifies this`bottom, this`added, ring
      ensures Valid() && (ok <==> |old(Contents())| < QueueSize - 1)
      ensures ok ==> Contents() == [e] + old(Contents()) && added == old(added) + 1
    {
      if Pred(bottom, QueueSize) != top { PutBottom(ring[..], bottom, top, e); }
      if bottom == 0 { bottom := QueueSize; }
      bottom := bottom - 1;
      if top == bottom { return false; }
      ring[bottom] := e;
      added := added + 1;
      ok := true;
    }

    method MoveUp()
      requires Valid() && Contents() != []
      modifies this`top, this`bottom, ring
      ensures Valid() && Contents() == old(Contents()[1..] + [Contents()[0]])
    {
      hide Queue.Contents, Between;
      ghost var s := Contents();
      var e := Rem();
      assert [e] + Contents() == s;
      assert e == s[0] && Contents() == s[1..];
      var ok := Push(e);
    }

    /** Moves the entries added since the counter was reset from the bottom to the top, the last added first. */
    method Rotate()
      requires Valid() && 0 <= added <= |Contents()|
      modifies this`top, this`bottom, this`added, ring
      ensures Valid() && Contents() == Rotated(old(Contents()), old(added)) && added == -1
    {
      hide Queue.Contents, Between, Rotated;
      ghost var s, k := Contents(), 0;
      RotateNone(s);
      added := added - 1;
      while added != -1
        invariant Valid() && added == old(added) - 1 - k && 0 <= k <= old(added)
        invariant Contents() == Rotated(s, k)
        decreases added
      {
        RotateOnce(s, k);
        MoveUp();
        k := k + 1;
        added := added - 1;
      }
    }
  }

  // ---------------------------------------------------------------- registers

  const MaxRegs: nat := 257

  // Registers in use: for a variable of the clause, for a value in between, or for good.
  const RVar: int := -1
  const TVar: int := -2
  const NVar: int := -3

  /** `free` is the list of free registers that starts at `r`; the last of them has no successor. */
  ghost predicate ListFrom(stat: seq<int>, r: int, free: seq<int>)
    requires |stat| == MaxRegs
    decreases |free|
  {
    && free != [] && free[0] == r && 0 < r < MaxRegs
    && if |free| == 1 then stat[r] == 0 else stat[r] == free[1] && ListFrom(stat, free[1], free[1..])
  }

  lemma {:induction false} SameList(stat: seq<int>, stat2: seq<int>, r: int, free: seq<int>)
    requires |stat| == |stat2| == MaxRegs && ListFrom(stat, r, free)
    requires forall x :: x in free && 0 <= x < MaxRegs ==> stat2[x] == stat[x]
    ensures ListFrom(stat2, r, free)
    decreases |free|
  {
    if |free| > 1 { SameList(stat, stat2, free[1], free[1..]); }
  }

  /** The free registers are those of the list and all above its last; the others are in use. */
  ghost predicate FreeList(stat: seq<int>, r: int, free: seq<int>) {
    && |stat| == MaxRegs && ListFrom(stat, r, free) && stat[0] == NVar
    && (forall i, j :: 0 <= i < j < |free| ==> free[i] != free[j])
    && (forall i :: 0 <= i < |free| ==> 0 < free[i] < MaxRegs && free[i] <= free[|free| - 1] && stat[free[i]] >= 0)
    && (forall x :: 0 <= x < free[|free| - 1] && x !in free ==> stat[x] < 0)
  }

  ghost function InUse(free: seq<int>): set<int>
    requires free != []
  {
    set x: int | 0 <= x < free[|free| - 1] && x !in free
  }

  lemma PopFree(stat: seq<int>, free: seq<int>, kind: int)
    requires free != [] && FreeList(stat, free[0], free) && |free| > 1 && kind < 0
    ensures FreeList(stat[free[0] := kind], free[1], free[1..]) && free[1] == stat[free[0]]
    ensures InUse(free[1..]) == InUse(free) + {free[0]} && free[0] !in InUse(free)
  {
    assert free[1..][|free| - 2] == free[|free| - 1];
    forall x | x in free[1..]
      ensures x != free[0]
    {
    }
    SameList(stat, stat[free[0] := kind], free[1], free[1..]);
  }

  lemma NewFree(stat: seq<int>, free: seq<int>, kind: int)
    requires |free| == 1 && FreeList(stat, free[0], free) && kind < 0 && free[0] + 1 < MaxRegs
    ensures FreeList(stat[free[0] + 1 := 0][free[0] := kind], free[0] + 1, [free[0] + 1])
    ensures InUse([free[0] + 1]) == InUse(free) + {free[0]} && free[0] !in InUse(free)
  {
  }

  lemma PushList(stat: seq<int>, free: seq<int>, r: int)
    requires |stat| == MaxRegs && free != [] && ListFrom(stat, free[0], free) && 0 < r < MaxRegs && r !in free
    ensures ListFrom(stat[r := free[0]], r, [r] + free)
  {
    SameList(stat, stat[r := free[0]], free[0], free);
    assert ([r] + free)[1..] == free;
  }

  lemma PushInUse(free: seq<int>, r: int)
    requires free != [] && r in InUse(free)
    ensures InUse([r] + free) == InUse(free) - {r}
  {
    var list := [r] + free;
    assert list[|list| - 1] == free[|free| - 1];
    forall x
      ensures x in list <==> x == r || x in free
    {
    }
  }

  lemma PushFree(stat: seq<int>, free: seq<int>, r: int)
    requires free != [] && FreeList(stat, free[0], free) && r in InUse(free) && r != 0
    ensures FreeList(stat[r := free[0]], r, [r] + free) && InUse([r] + free) == InUse(free) - {r}
  {
    hide ListFrom;
    PushInUse(free, r);
    var list, s := [r] + free, stat[r := free[0]];
    PushList(stat, free, r);
    assert list[|list| - 1] == free[|free| - 1];
    assert forall i :: 0 < i < |list| ==> list[i] == free[i - 1];
    forall x | 0 <= x < list[|list| - 1] && x !in list
      ensures s[x] < 0
    {
      assert x != r && x !in free;
    }
  }

  lemma InUseRange(stat: seq<int>, free: seq<int>)
    requires free != [] && FreeList(stat, free[0], free)
    ensures forall x :: x in InUse(free) ==> 0 <= x < MaxRegs && stat[x] < 0
    ensures free[0] !in InUse(free) && (stat[free[0]] == 0 <==> |free| == 1)
  {
    if |free| > 1 { assert ListFrom(stat, free[1], free[1..]); }
  }

  /** A register is left to be taken exactly if the table has room for one more. */
  lemma RoomLeft(stat: seq<int>, free: seq<int>)
    requires free != [] && FreeList(stat, free[0], free)
    ensures |free| > 1 || free[0] + 1 < MaxRegs <==> |InUse(free)| < MaxRegs - 1
  {
    hide ListFrom;
    if |free| == 1 {
      BelowCount(free[0]);
      assert InUse(free) == Below(free[0]);
    } else {
      TwoFree(stat, free);
    }
  }

  lemma TwoFree(stat: seq<int>, free: seq<int>)
    requires |free| > 1 && FreeList(stat, free[0], free)
    ensures |InUse(free)| < MaxRegs - 1
  {
    hide ListFrom;
    assert free[0] != free[1] && free[0] in free && free[1] in free;
    BelowCount(MaxRegs);
    BesidesTwo(InUse(free), free[0], free[1]);
  }

  lemma BesidesTwo(a: set<int>, x: int, y: int)
    requires a <= Below(MaxRegs) && x in Below(MaxRegs) && y in Below(MaxRegs) && x != y && x !in a && y !in a
    ensures |a| < MaxRegs - 1
  {
    hide Below;
    BelowCount(MaxRegs);
    assert |a + {x, y}| == |a| + 2;
    NoMore(a + {x, y}, Below(MaxRegs));
  }

  ghost function Below(n: nat): set<int> {
    if n == 0 then {} else Below(n - 1) + {n - 1}
  }

  lemma {:induction false} BelowCount(n: nat)
    ensures |Below(n)| == n && forall x :: x in Below(n) <==> 0 <= x < n
  {
    if n > 0 { BelowCount(n - 1); }
  }

  lemma NoMore(a: set<int>, b: set<int>)
    requires a <= b
    ensures |a| <= |b|
  {
    assert b == a + (b - a);
  }

  /** What taking a register makes of the table and of the start of the free list; nothing if none is left. */
  function TakeFrom(stat: seq<int>, first: int, kind: int): Option<(seq<int>, int)> {
    if !(0 <= first < |stat|) then None
    else if stat[first] != 0 then Some((stat[first := kind], stat[first]))
    else if first + 1 >= |stat| then None
    else Some((stat[first + 1 := 0][first := kind], first + 1))
  }

  /** What releasing the register `r` makes of them, provided it holds a value of that kind. */
  function GiveBack(stat: seq<int>, first: int, r: int, kind: int): (seq<int>, int) {
    if 0 <= r < |stat| && stat[r] == kind then (stat[r := first], r) else (stat, first)
  }

  lemma TakenFrom(stat: seq<int>, free: seq<int>, kind: int) returns (free2: seq<int>)
    requires free != [] && FreeList(stat, free[0], free) && kind < 0 && TakeFrom(stat, free[0], kind).Some?
    ensures var t := TakeFrom(stat, free[0], kind).value;
            free2 != [] && free2[0] == t.1 && FreeList(t.0, t.1, free2)
    ensures InUse(free2) == InUse(free) + {free[0]} && free[0] !in InUse(free)
  {
    InUseRange(stat, free);
    FirstFree(stat, free);
    if |free| == 1 {
      NewFree(stat, free, kind);
      free2 := [free[0] + 1];
    } else {
      PopFree(stat, free, kind);
      free2 := free[1..];
    }
  }

  lemma GivenBack(stat: seq<int>, free: seq<int>, r: int, kind: int) returns (free2: seq<int>)
    requires free != [] && FreeList(stat, free[0], free) && r in InUse(free) && NVar < kind < 0
    ensures var t := GiveBack(stat, free[0], r, kind);
            free2 != [] && free2[0] == t.1 && FreeList(t.0, t.1, free2)
    ensures 0 <= r < |stat| && InUse(free2) == if stat[r] == kind then InUse(free) - {r} else InUse(free)
  {
    InUseRange(stat, free);
    if stat[r] == kind {
      PushFree(stat, free, r);
      free2 := [r] + free;
    } else {
      free2 := free;
    }
  }

  /** The table determines the free list. */
  lemma {:induction false} OneList(stat: seq<int>, r: int, a: seq<int>, b: seq<int>)
    requires |stat| == MaxRegs && ListFrom(stat, r, a) && ListFrom(stat, r, b)
    ensures a == b
    decreases |a|
  {
    if |a| > 1 {
      assert |b| > 1 && a[1] == b[1];
      OneList(stat, a[1], a[1..], b[1..]);
      assert a == [a[0]] + a[1..] && b == [b[0]] + b[1..];
    }
  }

  /** The registers, with the free ones linked through the table. */
  class Registers {
    const stat: array<int>
    var freeReg: int
    ghost var free: seq<int>

    ghost predicate Valid()
      reads this, stat
    {
      stat.Length == MaxRegs && free != [] && free[0] == freeReg && FreeList(stat[..], freeReg, free)
    }

    /** The registers in use. */
    ghost function Taken(): (t: set<int>)
      requires Valid()
      reads this, stat
      ensures forall x :: x in t ==> 0 <= x < MaxRegs && stat[x] < 0
    {
      InUseRange(stat[..], free);
      InUse(free)
    }

    constructor (size: nat)
      requires size + 1 < MaxRegs
      ensures Valid() && fresh(stat) && forall r :: r in Taken() <==> 0 <= r <= size
      ensures forall r :: 0 <= r <= size ==> stat[r] == NVar
    {
      stat := new int[MaxRegs];
      freeReg := size + 1;
      free := [size + 1];
      new;
      var i := 0;
      while i < freeReg
        invariant 0 <= i <= freeReg && freeReg == size + 1 && stat.Length == MaxRegs && free == [size + 1] &&
                  fresh(stat)
        invariant forall r :: 0 <= r < i ==> stat[r] == NVar
      {
        stat[i] := NVar;
        i := i + 1;
      }
      stat[freeReg] := 0;
    }

    /** Takes a free register; fails when all registers have been used. */
    method Get(kind: int) returns (ok: bool, r: int)
      requires Valid() && kind < 0
      modifies this, stat
      ensures ok ==> Valid() && r !in old(Taken()) && 0 < r < MaxRegs
      ensures ok ==> Taken() == old(Taken()) + {r} && stat[r] == kind
      ensures ok ==> forall x :: x in old(Taken()) ==> stat[x] == old(stat[x])
      ensures ok <==> |old(Taken())| < MaxRegs - 1
      ensures r == old(freeReg)
      ensures TakeFrom(old(stat[..]), old(freeReg), kind) == if ok then Some((stat[..], freeReg)) else None
    {
      hide FreeList, InUse;
      ghost var s := stat[..];
      InUseRange(s, free);
      RoomLeft(s, free);
      FirstFree(s, free);
      r := freeReg;
      ghost var more := free;
      if TakeFrom(s, r, kind).Some? { more := TakenFrom(s, free, kind); }
      if stat[freeReg] == 0 {
        freeReg := freeReg + 1;
        if freeReg >= MaxRegs { return false, r; }
        stat[freeReg] := 0;
      } else {
        freeReg := stat[freeReg];
      }
      stat[r] := kind;
      free := more;
      ok := true;
      assert (stat[..], freeReg) == TakeFrom(s, r, kind).value;
    }

    /** Gives back a register that held a value in between. */
    method Release(r: int)
      requires Valid() && r in Taken()
      modifies this, stat
      ensures Valid()
      ensures Taken() == if old(stat[r]) == TVar then old(Taken()) - {r} else old(Taken())
      ensures forall x :: x in Taken() ==> stat[x] == old(stat[x])
      ensures (stat[..], freeReg) == GiveBack(old(stat[..]), old(freeReg), r, TVar)
    {
      if stat[r] == TVar {
        PushFree(stat[..], free, r);
        InUseRange(stat[..], free);
        hide FreeList, InUse;
        stat[r] := freeReg;
        freeReg := r;
        free := [r] + free;
      }
    }

    /** Gives back a register that held a variable of the clause. */
    method ReleasePerm(r: int)
      requires Valid() && r in Taken()
      modifies this, stat
      ensures Valid() && Taken() == if old(stat[r]) == RVar then old(Taken()) - {r} else old(Taken())
      ensures forall x :: x in Taken() ==> stat[x] == old(stat[x])
    {
      if stat[r] == RVar {
        PushFree(stat[..], free, r);
        InUseRange(stat[..], free);
        hide FreeList, InUse;
        stat[r] := freeReg;
        freeReg := r;
        free := [r] + free;
      }
    }
  }

  lemma FirstFree(stat: seq<int>, free: seq<int>)
    requires free != [] && FreeList(stat, free[0], free)
    ensures 0 < free[0] < MaxRegs
  {
  }
}
