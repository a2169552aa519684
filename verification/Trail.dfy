/** The trail: frames linked through their parent words, with a frozen part that new frames are put above.  At a
    cut, frames that are no longer needed are taken out of the chain in place; backtracking does not notice. */
module Trail {

  // The low bit of a variable's address marks a frame that also holds the variable's old value.
  const Mark: int := 1

  predicate Marked(word: int) {
    word % 2 == Mark
  }

  // A frame as a value: the variable, its new value, and its old value if the frame has one.
  datatype Entry = Plain(addr: int, value: int) | PreImage(addr: int, value: int, before: int)

  /** The frame at `t`: parent, value, variable and perhaps old value, from the top down. */
  function EntryAt(s: seq<int>, t: int): Entry
    requires 3 <= t < |s|
  {
    if Marked(s[t - 2]) then PreImage(s[t - 2] - Mark, s[t - 1], s[t - 3]) else Plain(s[t - 2], s[t - 1])
  }

  function Size(s: seq<int>, t: int): int
    requires 3 <= t < |s|
  {
    if Marked(s[t - 2]) then 4 else 3
  }

  /** The frame at `t` lies between its parent `p` and the next frame, and refers to `p`. */
  predicate Linked(s: seq<int>, t: int, p: int) {
    0 <= p && 3 <= t < |s| && p + Size(s, t) <= t && s[t] == p
  }

  /** The frames `fs`, the youngest first, followed by the bottom of the trail, which is its own parent. */
  predicate Chained(s: seq<int>, fs: seq<int>)
    decreases |fs|
  {
    && fs != [] && 0 <= fs[0] < |s|
    && if |fs| == 1 then s[fs[0]] == fs[0] else Linked(s, fs[0], fs[1]) && Chained(s, fs[1..])
  }

  /** The frames' contents, without the bottom. */
  function Entries(s: seq<int>, fs: seq<int>): seq<Entry>
    requires Chained(s, fs)
    decreases |fs|
  {
    if |fs| == 1 then [] else [EntryAt(s, fs[0])] + Entries(s, fs[1..])
  }

  lemma {:induction false} ChainDown(s: seq<int>, fs: seq<int>)
    requires Chained(s, fs)
    ensures forall i :: 0 <= i < |fs| ==> 0 <= fs[i] <= fs[0]
    ensures forall i :: 0 < i < |fs| ==> fs[i] < fs[0]
    decreases |fs|
  {
    if |fs| > 1 {
      ChainDown(s, fs[1..]);
      assert forall i :: 0 < i < |fs| ==> fs[i] == fs[1..][i - 1];
    }
  }

  /** A change above the chain, or nowhere near its words, leaves it alone. */
  lemma {:induction false} ChainSame(s: seq<int>, s2: seq<int>, fs: seq<int>)
    requires Chained(s, fs) && |s| <= |s2| && forall i :: 0 <= i <= fs[0] ==> s2[i] == s[i]
    ensures Chained(s2, fs) && Entries(s2, fs) == Entries(s, fs)
    decreases |fs|
  {
    hide Linked, EntryAt;
    if |fs| > 1 {
      ChainDown(s, fs);
      FrameUnder(s, s2, fs[0], fs[1]);
      ChainSame(s, s2, fs[1..]);
    }
  }

  lemma FrameUnder(s: seq<int>, s2: seq<int>, t: int, p: int)
    requires Linked(s, t, p) && |s| <= |s2| && forall i :: 0 <= i <= t ==> s2[i] == s[i]
    ensures Linked(s2, t, p) && 3 <= t < |s| && EntryAt(s2, t) == EntryAt(s, t)
  {
  }

  // ---------------------------------------------------------------- undoing

  type Cells = map<int, int>

  /** Undoing a binding: the cell becomes free again, which means it refers to itself, or gets its old value. */
  function Restore(e: Entry, cells: Cells): Cells {
    match e
    case Plain(a, _) => cells[a := a]
    case PreImage(a, _, before) => cells[a := before]
  }

  function Undo(es: seq<Entry>, cells: Cells): Cells {
    if es == [] then cells else Undo(es[1..], Restore(es[0], cells))
  }

  lemma {:induction false} UndoConcat(a: seq<Entry>, b: seq<Entry>, cells: Cells)
    ensures Undo(a + b, cells) == Undo(b, Undo(a, cells))
  {
    if a == [] {
      assert a + b == b;
    } else {
      assert (a + b)[0] == a[0] && (a + b)[1..] == a[1..] + b;
      UndoConcat(a[1..], b, Restore(a[0], cells));
    }
  }

  lemma UndoOne(es: seq<Entry>, j: int, cells: Cells)
    requires 0 <= j < |es|
    ensures Undo(es[..j + 1], cells) == Restore(es[j], Undo(es[..j], cells))
  {
    UndoConcat(es[..j], [es[j]], cells);
    assert es[..j + 1] == es[..j] + [es[j]] && [es[j]][1..] == [];
  }

  function Read(cells: Cells, x: int): int {
    if x in cells then cells[x] else x
  }

  // Which cells must be trailed, with the registers that decide it.
  datatype Bounds = Bounds(eb: int, ef: int, hb: int, hf: int)

  predicate Conditional(b: Bounds, a: int) {
    a >= b.eb || a >= b.ef || a < b.hb || a < b.hf
  }

  predicate Aligned(b: Bounds) {
    b.eb % 2 == 0 && b.ef % 2 == 0 && b.hb % 2 == 0 && b.hf % 2 == 0
  }

  /** A cell that existed when a choice point with these registers was created: the heap grows upward, the stack of
      environments downward. */
  ghost predicate Existed(hreg: int, ebreg: int, a: int) {
    a < hreg || a >= ebreg
  }

  /** A cell older than the youngest choice point, or frozen. */
  ghost predicate Old(b: Bounds, a: int) {
    Existed(b.hb, b.eb, a) || Existed(b.hf, b.ef, a)
  }

  /** The mark in a variable word does not disturb the test. */
  lemma MarkHarmless(b: Bounds, word: int)
    requires Aligned(b) && Marked(word)
    ensures Conditional(b, word) <==> Conditional(b, word - Mark)
  {
  }

  /** The entries for old cells. */
  ghost function Needed(es: seq<Entry>, b: Bounds): seq<Entry> {
    if es == [] then [] else if Old(b, es[0].addr) then [es[0]] + Needed(es[1..], b) else Needed(es[1..], b)
  }

  ghost predicate Agree(b: Bounds, c: Cells, d: Cells) {
    forall x :: Old(b, x) ==> Read(c, x) == Read(d, x)
  }

  lemma {:induction false} UndoAgrees(es: seq<Entry>, b: Bounds, c: Cells, d: Cells)
    requires Agree(b, c, d)
    ensures Agree(b, Undo(es, c), Undo(es, d))
  {
    if es != [] { UndoAgrees(es[1..], b, Restore(es[0], c), Restore(es[0], d)); }
  }

  /** Undoing only the needed entries of a segment has the same effect on all old cells, whatever is undone
      after them. */
  lemma {:induction false} TidyAgrees(es: seq<Entry>, rest: seq<Entry>, b: Bounds, c: Cells, d: Cells)
    requires Agree(b, c, d)
    ensures Agree(b, Undo(Needed(es, b) + rest, c), Undo(es + rest, d))
  {
    if es == [] {
      UndoAgrees(rest, b, c, d);
      assert Needed(es, b) + rest == rest && es + rest == rest;
    } else {
      assert (es + rest)[0] == es[0] && (es + rest)[1..] == es[1..] + rest;
      if Old(b, es[0].addr) {
        var n := Needed(es, b) + rest;
        assert n[0] == es[0] && n[1..] == Needed(es[1..], b) + rest;
        TidyAgrees(es[1..], rest, b, Restore(es[0], c), Restore(es[0], d));
      } else {
        TidyAgrees(es[1..], rest, b, c, Restore(es[0], d));
      }
    }
  }

  // ---------------------------------------------------------------- chains in parts

  lemma {:induction false} EntriesLength(s: seq<int>, fs: seq<int>)
    requires Chained(s, fs)
    ensures |Entries(s, fs)| == |fs| - 1
    decreases |fs|
  {
    if |fs| > 1 { EntriesLength(s, fs[1..]); }
  }

  lemma {:induction false} ChainTail(s: seq<int>, fs: seq<int>, k: int)
    requires Chained(s, fs) && 0 <= k < |fs|
    ensures Chained(s, fs[k..]) && |Entries(s, fs)| == |fs| - 1 && Entries(s, fs[k..]) == Entries(s, fs)[k..]
    decreases |fs|
  {
    EntriesLength(s, fs);
    if k > 0 {
      ChainTail(s, fs[1..], k - 1);
      assert fs[1..][k - 1..] == fs[k..];
    } else {
      assert fs[0..] == fs;
    }
  }

  lemma {:induction false} ChainAt(s: seq<int>, fs: seq<int>, k: int)
    requires Chained(s, fs) && 0 <= k < |fs| - 1
    ensures Linked(s, fs[k], fs[k + 1]) && |Entries(s, fs)| == |fs| - 1 && Entries(s, fs)[k] == EntryAt(s, fs[k])
    decreases |fs|
  {
    EntriesLength(s, fs);
    if k > 0 { ChainAt(s, fs[1..], k - 1); }
  }

  function Without<T>(s: seq<T>, k: int): seq<T>
    requires 0 <= k < |s|
  {
    s[..k] + s[k + 1..]
  }

  lemma WithoutLater<T>(s: seq<T>, k: int)
    requires 1 < k < |s|
    ensures Without(s, k)[0] == s[0] && Without(s, k)[1] == s[1] && Without(s, k)[1..] == Without(s[1..], k - 1)
    ensures Without(s, k) == [s[0]] + Without(s[1..], k - 1)
  {
  }

  lemma RelinkFrame(s: seq<int>, t: int, p: int, q: int)
    requires Linked(s, t, p) && 0 <= q <= p
    ensures Linked(s[t := q], t, q) && EntryAt(s[t := q], t) == EntryAt(s, t)
  {
  }

  lemma UnlinkSecond(s: seq<int>, fs: seq<int>)
    requires Chained(s, fs) && |fs| > 2
    ensures 0 <= fs[0] < |s|
    ensures var s2 := s[fs[0] := fs[2]];
            Chained(s2, Without(fs, 1)) && |Entries(s, fs)| == |fs| - 1 &&
            Entries(s2, Without(fs, 1)) == Without(Entries(s, fs), 1)
  {
    var s2, gs := s[fs[0] := fs[2]], Without(fs, 1);
    EntriesLength(s, fs);
    ChainTail(s, fs, 2);
    ChainAt(s, fs, 0);
    ChainAt(s, fs, 1);
    RelinkFrame(s, fs[0], fs[1], fs[2]);
    assert fs[2..][0] == fs[2] < fs[0];
    hide Linked, EntryAt;
    ChainSame(s, s2, fs[2..]);
    assert gs[0] == fs[0] && gs[1] == fs[2] && gs[1..] == fs[2..];
    assert Without(Entries(s, fs), 1) == [Entries(s, fs)[0]] + Entries(s, fs)[2..];
  }

  /** A change at or below its parent leaves a frame alone. */
  lemma FrameSame(s: seq<int>, s2: seq<int>, t: int, p: int)
    requires Linked(s, t, p) && |s| == |s2| && forall i :: p < i <= t ==> s2[i] == s[i]
    ensures Linked(s2, t, p) && EntryAt(s2, t) == EntryAt(s, t)
  {
  }

  /** Making the frame before number `k` refer to the one after it takes number `k` out. */
  lemma {:induction false} Unlink(s: seq<int>, fs: seq<int>, k: int)
    requires Chained(s, fs) && 0 < k < |fs| - 1
    ensures 0 <= fs[k - 1] < |s|
    ensures var s2 := s[fs[k - 1] := fs[k + 1]];
            Chained(s2, Without(fs, k)) && |Entries(s, fs)| == |fs| - 1 &&
            Entries(s2, Without(fs, k)) == Without(Entries(s, fs), k)
    decreases k
  {
    hide Linked, EntryAt;
    EntriesLength(s, fs);
    ChainIn(s, fs, k - 1);
    if k == 1 {
      UnlinkSecond(s, fs);
    } else {
      var s2, gs := s[fs[k - 1] := fs[k + 1]], Without(fs, k);
      ChainDown(s, fs[1..]);
      assert fs[k - 1] == fs[1..][k - 2];
      FrameSame(s, s2, fs[0], fs[1]);
      Unlink(s, fs[1..], k - 1);
      WithoutLater(fs, k);
      WithoutLater(Entries(s, fs), k);
    }
  }

  lemma NoneDropped(all: seq<int>, es: seq<Entry>, b: Bounds)
    ensures Needed(es[..0], b) == [] && all[0..] == all && es[0..] == es
  {
  }

  lemma NoneUndone(all: seq<int>, es: seq<Entry>, cells: Cells)
    ensures Undo(es[..0], cells) == cells && all[0..] == all
  {
  }

  lemma FramesInside(s: seq<int>, fs: seq<int>)
    requires Chained(s, fs)
    ensures forall i :: 0 <= i < |fs| - 1 ==> 3 <= fs[i] < |s|
  {
    forall i | 0 <= i < |fs| - 1
      ensures 3 <= fs[i] < |s|
    {
      ChainAt(s, fs, i);
    }
  }

  lemma ChainIn(s: seq<int>, fs: seq<int>, k: int)
    requires Chained(s, fs) && 0 <= k < |fs| - 1
    ensures 0 <= fs[k] < |s|
  {
    ChainAt(s, fs, k);
  }

  /** How many frames of the chain lie above `limit`. */
  function Above(fs: seq<int>, limit: int): (k: nat)
    requires fs != []
    ensures k < |fs| && (k < |fs| - 1 ==> fs[k] <= limit)
    ensures forall i :: 0 <= i < k ==> fs[i] > limit
    decreases |fs|
  {
    if |fs| == 1 || fs[0] <= limit then 0 else 1 + Above(fs[1..], limit)
  }

  lemma NeededLast(es: seq<Entry>, j: int, b: Bounds)
    requires 0 <= j < |es|
    ensures Needed(es[..j + 1], b) == Needed(es[..j], b) + if Old(b, es[j].addr) then [es[j]] else []
  {
    NeededConcat(es[..j], [es[j]], b);
    assert es[..j + 1] == es[..j] + [es[j]];
    assert [es[j]][1..] == [];
  }

  lemma {:induction false} NeededConcat(a: seq<Entry>, c: seq<Entry>, b: Bounds)
    ensures Needed(a + c, b) == Needed(a, b) + Needed(c, b)
  {
    if a == [] {
      assert a + c == c;
    } else {
      assert (a + c)[0] == a[0] && (a + c)[1..] == a[1..] + c;
      NeededConcat(a[1..], c, b);
    }
  }

  /** A new frame above the chain. */
  lemma Pushed(s: seq<int>, s2: seq<int>, fs: seq<int>, t: int)
    requires Chained(s, fs) && |s| == |s2| && Linked(s2, t, fs[0]) && forall i :: 0 <= i <= fs[0] ==> s2[i] == s[i]
    ensures Chained(s2, [t] + fs) && Entries(s2, [t] + fs) == [EntryAt(s2, t)] + Entries(s, fs)
  {
    ChainSame(s, s2, fs);
    assert ([t] + fs)[1..] == fs;
  }

  lemma PlainFrame(s: seq<int>, t: int, p: int, addr: int, val: int)
    requires 3 <= t < |s| && 0 <= p <= t - 3 && addr % 2 == 0
    requires s[t] == p && s[t - 1] == val && s[t - 2] == addr
    ensures Linked(s, t, p) && EntryAt(s, t) == Plain(addr, val)
  {
  }

  lemma PreImageFrame(s: seq<int>, t: int, p: int, addr: int, val: int, before: int)
    requires 4 <= t < |s| && 0 <= p <= t - 4 && addr % 2 == 0
    requires s[t] == p && s[t - 1] == val && s[t - 2] == addr + Mark && s[t - 3] == before
    ensures Linked(s, t, p) && EntryAt(s, t) == PreImage(addr, val, before)
  {
  }

  // ---------------------------------------------------------------- the engine

  class Engine {
    // The trail; word addresses are indexes.
    const stack: array<int>
    // The cells that variables' addresses refer to; one not listed is free.
    var cells: Cells
    var trreg: int
    var trfreg: int
    var bounds: Bounds
    ghost var fs: seq<int>

    ghost predicate Valid()
      reads this, stack
    {
      Chained(stack[..], fs) && fs[0] == trreg && Aligned(bounds)
    }

    ghost function Contents(): (es: seq<Entry>)
      requires Valid()
      reads this, stack
      ensures |es| == |fs| - 1
    {
      EntriesLength(stack[..], fs);
      Entries(stack[..], fs)
    }

    /** What the cells hold once everything bound since the trail register was `limit` has been undone. */
    ghost function Restored(limit: int): Cells
      requires Valid()
      reads this, stack
    {
      NotEmpty(stack[..], fs);
      Undo(Contents()[..Above(fs, limit)], cells)
    }

    /** Pushes a frame above both the youngest frame and the frozen part. */
    method PushTrail0(addr: int, val: int)
      requires Valid() && addr % 2 == 0 && 0 <= trreg && trreg + 4 < stack.Length && trfreg + 4 < stack.Length
      modifies this`trreg, this`fs, stack
      ensures Valid() && Contents() == [Plain(addr, val)] + old(Contents()) && fs == [trreg] + old(fs)
      ensures trreg > old(trreg) && trreg > trfreg
      ensures forall i :: 0 <= i < stack.Length && (i <= old(trreg) || i <= trfreg) ==> stack[i] == old(stack[i])
    {
      hide Chained, Entries, Linked, EntryAt;
      ghost var s, es := stack[..], Contents();
      if trfreg > trreg {
        stack[trfreg + 3] := trreg;
        trreg := trfreg + 3;
        stack[trreg - 1] := val;
        stack[trreg - 2] := addr;
      } else {
        trreg := trreg + 3;
        stack[trreg] := trreg - 3;
        stack[trreg - 1] := val;
        stack[trreg - 2] := addr;
      }
      PlainFrame(stack[..], trreg, fs[0], addr, val);
      Pushed(s, stack[..], fs, trreg);
      fs := [trreg] + fs;
    }

    /** The same, also saving the cell's old value. */
    method PushPreImageTrail0(addr: int, val: int)
      requires Valid() && addr % 2 == 0 && 0 <= trreg && trreg + 4 < stack.Length && trfreg + 4 < stack.Length
      modifies this`trreg, this`fs, stack
      ensures Valid() && fs == [trreg] + old(fs)
      ensures Contents() == [PreImage(addr, val, Read(cells, addr))] + old(Contents())
      ensures trreg > old(trreg) && trreg > trfreg
      ensures forall i :: 0 <= i < stack.Length && (i <= old(trreg) || i <= trfreg) ==> stack[i] == old(stack[i])
    {
      hide Chained, Entries, Linked, EntryAt;
      ghost var s, es := stack[..], Contents();
      if trfreg > trreg {
        stack[trfreg + 4] := trreg;
        trreg := trfreg + 4;
      } else {
        trreg := trreg + 4;
        stack[trreg] := trreg - 4;
      }
      stack[trreg - 1] := val;
      stack[trreg - 2] := addr + Mark;
      stack[trreg - 3] := Read(cells, addr);
      PreImageFrame(stack[..], trreg, fs[0], addr, val, Read(cells, addr));
      Pushed(s, stack[..], fs, trreg);
      fs := [trreg] + fs;
    }

    /** Binds a free variable, trailing it if it is old.  Undoing leads to what it would have led to before. */
    method Bind(addr: int, val: int)
      requires Valid() && addr % 2 == 0 && 0 <= trreg && trreg + 4 < stack.Length && trfreg + 4 < stack.Length
      requires Read(cells, addr) == addr
      modifies this`trreg, this`fs, this`cells, stack
      ensures Valid() && cells == old(cells)[addr := val]
      ensures Contents() == (if Old(bounds, addr) then [Plain(addr, val)] else []) + old(Contents())
      ensures forall older :: older <= old(trreg) ==> Agree(bounds, Restored(older), old(Restored(older)))
    {
      hide Chained, Entries, Agree, Undo, Read, Restore;
      ghost var es, c, all := Contents(), cells, fs;
      NotEmpty(stack[..], fs);
      if Conditional(bounds, addr) { PushTrail0(addr, val); }
      cells := cells[addr := val];
      forall older | older <= old(trreg)
        ensures Agree(bounds, Restored(older), Undo(es[..Above(all, older)], c))
      {
        if Old(bounds, addr) {
          OneAbove(fs, all, older);
          BoundPlain(bounds, es[..Above(all, older)], c, addr, val);
          assert Contents()[..Above(fs, older)] == [Plain(addr, val)] + es[..Above(all, older)];
        } else {
          BoundNew(bounds, es[..Above(all, older)], c, addr, val);
        }
      }
    }

    /** Gives an attributed variable another value, saving the old one if the variable is old. */
    method BindAttv(addr: int, val: int)
      requires Valid() && addr % 2 == 0 && 0 <= trreg && trreg + 4 < stack.Length && trfreg + 4 < stack.Length
      modifies this`trreg, this`fs, this`cells, stack
      ensures Valid() && cells == old(cells)[addr := val]
      ensures Contents() ==
              (if Old(bounds, addr) then [PreImage(addr, val, Read(old(cells), addr))] else []) + old(Contents())
      ensures forall older :: older <= old(trreg) ==> Agree(bounds, Restored(older), old(Restored(older)))
    {
      hide Chained, Entries, Agree, Undo, Read, Restore;
      ghost var es, c, all := Contents(), cells, fs;
      NotEmpty(stack[..], fs);
      if Conditional(bounds, addr) { PushPreImageTrail0(addr, val); }
      cells := cells[addr := val];
      forall older | older <= old(trreg)
        ensures Agree(bounds, Restored(older), Undo(es[..Above(all, older)], c))
      {
        if Old(bounds, addr) {
          OneAbove(fs, all, older);
          BoundPreImage(bounds, es[..Above(all, older)], c, addr, val);
          assert Contents()[..Above(fs, older)] ==
                 [PreImage(addr, val, Read(c, addr))] + es[..Above(all, older)];
        } else {
          BoundNew(bounds, es[..Above(all, older)], c, addr, val);
        }
      }
    }

    /** Undoes one frame. */
    method Untrail2(t: int)
      requires 3 <= t < stack.Length
      modifies this`cells
      ensures cells == Restore(EntryAt(stack[..], t), old(cells))
    {
      if Marked(stack[t - 2]) {
        cells := cells[stack[t - 2] - Mark := stack[t - 3]];
      } else {
        cells := cells[stack[t - 2] := stack[t - 2]];
      }
    }

    /** Undoes all bindings made since the trail register was `limit`. */
    method UndoBindings(limit: int)
      requires Valid() && fs[|fs| - 1] <= limit
      modifies this`trreg, this`cells, this`fs
      ensures Valid() && fs == old(fs[Above(fs, limit)..])
      ensures cells == Undo(old(Contents()[..Above(fs, limit)]), old(cells)) == old(Restored(limit))
    {
      hide Chained, Entries, EntryAt, Undo, Restore;
      ghost var s, es, all, k := stack[..], Contents(), fs, Above(fs, limit);
      ghost var j := 0;
      NoneUndone(all, es, cells);
      while trreg > limit
        invariant 0 <= j <= k && Chained(s, all) && trreg == all[j] && fs == all[j..] && |es| == |all| - 1
        invariant cells == Undo(es[..j], old(cells))
        decreases k - j
      {
        ChainAt(s, all, j);
        UndoOne(es, j, old(cells));
        Untrail2(trreg);
        trreg := stack[trreg];
        j := j + 1;
        fs := all[j..];
      }
      ChainTail(s, all, j);
    }

    predicate GoodTrailRegister(t: int)
      requires 3 <= t < stack.Length
      reads this`bounds, stack
    {
      Conditional(bounds, stack[t - 2])
    }

    /** Drops the youngest frames as long as they need not be kept. */
    method DropTop(limit: int, ghost bound: int) returns (ghost j: nat)
      requires Valid() && fs[|fs| - 1] <= trfreg && bound == Max(limit, trfreg)
      modifies this`trreg, this`fs
      ensures Valid() && j <= Above(old(fs), bound) && fs == old(fs)[j..] && Contents() == old(Contents())[j..]
      ensures Needed(old(Contents())[..j], bounds) == []
      ensures if trreg <= bound then j == Above(old(fs), bound)
              else 3 <= trreg < stack.Length && GoodTrailRegister(trreg)
    {
      hide EntryAt, Linked, Needed, Conditional, Marked, Aligned, Old;
      ghost var s, all, es, k := stack[..], fs, Contents(), Above(fs, bound);
      j := 0;
      NoneDropped(all, es, bounds);
      FramesInside(s, all);
      while trreg > trfreg && !GoodTrailRegister(trreg) && trreg > limit
        invariant j <= k && Chained(s, all) && fs == all[j..] && trreg == all[j] && Needed(es[..j], bounds) == []
        decreases k - j
      {
        ChainAt(s, all, j);
        MarkIgnored(bounds, s, trreg);
        NeededLast(es, j, bounds);
        trreg := stack[trreg];
        j := j + 1;
        fs := all[j..];
      }
      ChainTail(s, all, j);
      if trreg > bound { ChainAt(s, all, j); }
    }

    /** Takes the frame at `t2`, number `n`, out of the chain, making the frame at `t1` before it refer to the next. */
    method SkipFrame(t1: int, t2: int, ghost n: int) returns (p: int)
      requires Valid() && 0 < n < |fs| - 1 && t1 == fs[n - 1] && t2 == fs[n]
      modifies this`fs, stack
      ensures Valid() && fs == Without(old(fs), n) && Contents() == Without(old(Contents()), n) && p == old(fs)[n + 1]
      ensures forall i :: 0 <= i < t1 && i < stack.Length ==> stack[i] == old(stack[i])
    {
      ChainAt(stack[..], fs, n);
      Unlink(stack[..], fs, n);
      p := stack[t2];
      ghost var s := stack[..];
      stack[t1] := p;
      assert stack[..] == s[fs[n - 1] := fs[n + 1]];
      fs := Without(fs, n);
    }

    /** Takes frames that need not be kept out from behind the youngest. */
    method Relink(limit: int, ghost bound: int, ghost all: seq<int>, ghost es: seq<Entry>, ghost j0: nat)
      requires Valid() && bound == Max(limit, trfreg) && |es| == |all| - 1 && all[|all| - 1] <= bound
      requires j0 <= Above(all, bound) && fs == all[j0..] && Contents() == es[j0..] && Needed(es[..j0], bounds) == []
      requires if trreg <= bound then j0 == Above(all, bound) else 3 <= trreg < stack.Length && GoodTrailRegister(trreg)
      modifies this`fs, stack
      ensures Valid() && Tidied(all, fs, es, Contents(), Above(all, bound), bound, bounds)
      ensures forall i :: 0 <= i <= bound && i < stack.Length ==> stack[i] == old(stack[i])
    {
      ghost var k: nat, j: nat := Above(all, bound), j0;
      BottomOrNot(stack[..], fs);
      var t1, t2 := trreg, stack[trreg];
      ghost var n: nat := 0;
      if trreg > bound {
        ChainAt(stack[..], fs, 0);
        MarkIgnored(bounds, stack[..], trreg);
        NeededLast(es, j, bounds);
        assert all[j..][1..] == all[j + 1..];
        n, j := 1, j + 1;
      }
      RelinkFrom(limit, t1, t2, bound, all, es, j, n, k);
    }

    /** Goes on from the frame at `t1`, the last of the `n` kept, and the one after it at `t20`. */
    method RelinkFrom(limit: int, t10: int, t20: int, ghost bound: int, ghost all: seq<int>, ghost es: seq<Entry>,
                      ghost j0: nat, ghost n0: nat, ghost k: nat)
      requires Valid() && bound == Max(limit, trfreg) && |es| == |all| - 1 && all[|all| - 1] <= bound
      requires k == Above(all, bound) && j0 <= k && TidyState(all, fs, es, Contents(), j0, n0, t10, t20, k, bound,
                                                              bounds)
      modifies this`fs, stack
      ensures Valid() && Tidied(all, fs, es, Contents(), k, bound, bounds)
      ensures forall i :: 0 <= i <= bound && i < stack.Length ==> stack[i] == old(stack[i])
    {
      hide TidyState, Chained, Needed, Tidied;
      var t1, t2 := t10, t20;
      ghost var j: nat, n: nat := j0, n0;
      while t2 > limit && t2 > trfreg
        invariant Valid() && j <= k && TidyState(all, fs, es, Contents(), j, n, t1, t2, k, bound, bounds)
        invariant forall i :: 0 <= i <= bound && i < stack.Length ==> stack[i] == old(stack[i])
        decreases |fs| - n
      {
        ghost var now := Contents();
        TidyNext(all, fs, es, now, j, n, t1, t2, k, bound, bounds);
        ChainAt(stack[..], fs, n);
        MarkIgnored(bounds, stack[..], t2);
        if !GoodTrailRegister(t2) {
          TidySkip(all, fs, es, now, j, n, t1, t2, k, bound, bounds);
          t2 := SkipFrame(t1, t2, n);
        } else {
          TidyKeep(all, fs, es, now, j, n, t1, t2, k, bound, bounds);
          t1 := t2;
          t2 := stack[t2];
          n := n + 1;
        }
        j := j + 1;
      }
      TidyEnd(all, fs, es, Contents(), j, n, t1, t2, k, bound, bounds);
    }

    /** Takes the frames for cells that need not be trailed any more out of the chain, down to the frozen part and
        to the trail register `limit` of the choice point being cut.  Backtracking to any choice point as old as that
        one does not notice. */
    method UnwindTrail(limit: int)
      requires Valid() && fs[|fs| - 1] <= limit && fs[|fs| - 1] <= trfreg
      modifies this`trreg, this`fs, stack
      ensures Valid()
      ensures var bound := Max(limit, trfreg);
              Tidied(old(fs), fs, old(Contents()), Contents(), Above(old(fs), bound), bound, bounds)
      ensures forall older :: old(fs[|fs| - 1]) <= older <= limit ==>
                Agree(bounds, Restored(older), old(Restored(older)))
      ensures forall older: int, c: Cells :: old(fs[|fs| - 1]) <= older <= limit ==>
                SameBack(old(fs), fs, old(Contents()), Contents(), bounds, older, c)
      ensures forall i :: 0 <= i < stack.Length && (i <= limit || i <= trfreg) ==> stack[i] == old(stack[i])
    {
      hide Tidied, SameBack, Chained, Decreasing, Needed;
      ghost var s, all, es, bound := stack[..], fs, Contents(), Max(limit, trfreg);
      ChainDecreasing(s, all);
      NotEmpty(s, all);
      ghost var j := DropTop(limit, bound);
      Relink(limit, bound, all, es, j);
      ChainDecreasing(stack[..], fs);
      forall older: int, c: Cells | all[|all| - 1] <= older <= limit
        ensures SameBack(all, fs, es, Contents(), bounds, older, c)
      {
        CutInvisible(all, fs, es, Contents(), limit, trfreg, bounds, older, c);
      }
      forall older | all[|all| - 1] <= older <= limit
        ensures Agree(bounds, Restored(older), old(Restored(older)))
      {
        SameBackNow(all, fs, es, Contents(), bounds, older, cells);
      }
    }
  }

  /** In the middle of tidying: `j` entries have been looked at and `n` of them kept, the last being that at `t1`. */
  ghost predicate TidyState(all: seq<int>, fs: seq<int>, es: seq<Entry>, now: seq<Entry>, j: nat, n: nat, t1: int,
                            t2: int, k: nat, bound: int, b: Bounds)
    requires |es| == |all| - 1 && |now| == |fs| - 1 && k == Above(all, bound) && j <= k
  {
    && n == |Needed(es[..j], b)| && now == Needed(es[..j], b) + es[j..] && n < |fs| && fs[n..] == all[j..]
    && if n == 0 then j == k && t2 <= bound
       else t1 == fs[n - 1] && t1 > bound && t2 == fs[n]
  }

  lemma TidyNext(all: seq<int>, fs: seq<int>, es: seq<Entry>, now: seq<Entry>, j: nat, n: nat, t1: int, t2: int,
                 k: nat, bound: int, b: Bounds)
    requires |es| == |all| - 1 && |now| == |fs| - 1 && k == Above(all, bound) && j <= k
    requires TidyState(all, fs, es, now, j, n, t1, t2, k, bound, b) && t2 > bound && all[|all| - 1] <= bound
    ensures 0 < n < |fs| - 1 && j < k && t2 == all[j] && t1 == fs[n - 1] && t2 == fs[n] && t1 > bound && now[n] == es[j]
  {
    assert fs[n..][0] == all[j];
  }

  lemma TidyEnd(all: seq<int>, fs: seq<int>, es: seq<Entry>, now: seq<Entry>, j: nat, n: nat, t1: int, t2: int,
                 k: nat, bound: int, b: Bounds)
    requires |es| == |all| - 1 && |now| == |fs| - 1 && k == Above(all, bound) && j <= k
    requires TidyState(all, fs, es, now, j, n, t1, t2, k, bound, b) && t2 <= bound
    ensures Tidied(all, fs, es, now, k, bound, b)
  {
    if n > 0 { assert fs[n..][0] == all[j]; }
  }

  lemma TidySkip(all: seq<int>, fs: seq<int>, es: seq<Entry>, now: seq<Entry>, j: nat, n: nat, t1: int, t2: int,
                 k: nat, bound: int, b: Bounds)
    requires |es| == |all| - 1 && |now| == |fs| - 1 && k == Above(all, bound) && j <= k
    requires TidyState(all, fs, es, now, j, n, t1, t2, k, bound, b) && t2 > bound && all[|all| - 1] <= bound
    ensures 0 < n < |fs| - 1 && j < k && t2 == all[j]
    ensures !Old(b, es[j].addr) ==>
              TidyState(all, Without(fs, n), es, Without(now, n), j + 1, n, t1, fs[n + 1], k, bound, b)
  {
    TidyNext(all, fs, es, now, j, n, t1, t2, k, bound, b);
    NeededLast(es, j, b);
    hide Needed, Above;
    DroppedOne(Needed(es[..j], b), es, j, now);
    SliceSlice(fs, n, 1);
    SliceSlice(all, j, 1);
    assert Without(fs, n)[n..] == fs[n + 1..];
  }

  lemma SliceSlice(s: seq<int>, n: nat, d: nat)
    requires n + d <= |s|
    ensures s[n..][d..] == s[n + d..]
  {
  }

  lemma DroppedOne(kept: seq<Entry>, es: seq<Entry>, j: nat, now: seq<Entry>)
    requires j < |es| && now == kept + es[j..]
    ensures Without(now, |kept|) == kept + es[j + 1..]
  {
  }

  lemma TidyKeep(all: seq<int>, fs: seq<int>, es: seq<Entry>, now: seq<Entry>, j: nat, n: nat, t1: int, t2: int,
                 k: nat, bound: int, b: Bounds)
    requires |es| == |all| - 1 && |now| == |fs| - 1 && k == Above(all, bound) && j <= k
    requires TidyState(all, fs, es, now, j, n, t1, t2, k, bound, b) && t2 > bound && all[|all| - 1] <= bound
    requires j < |es| ==> Old(b, es[j].addr)
    ensures 0 < n < |fs| - 1 && j < k && t2 == all[j]
    ensures TidyState(all, fs, es, now, j + 1, n + 1, t2, fs[n + 1], k, bound, b)
  {
    hide Needed, Above;
    TidyNext(all, fs, es, now, j, n, t1, t2, k, bound, b);
    NeededLast(es, j, b);
    assert now == Needed(es[..j], b) + [es[j]] + es[j + 1..];
    SliceSlice(fs, n, 1);
    SliceSlice(all, j, 1);
  }

  lemma BottomOrNot(s: seq<int>, fs: seq<int>)
    requires Chained(s, fs)
    ensures |fs| == 1 || (fs[1] < fs[0] && s[fs[0]] == fs[1])
  {
  }

  function Max(a: int, b: int): int {
    if a > b then a else b
  }

  /** The tidied chain: of the `k` youngest entries the needed ones are left, and all older frames are where they
      were. */
  ghost predicate Tidied(fs: seq<int>, fs2: seq<int>, es: seq<Entry>, es2: seq<Entry>, k: nat, bound: int, b: Bounds)
    requires |es| == |fs| - 1 && |es2| == |fs2| - 1 && k < |fs|
  {
    var n := |Needed(es[..k], b)|;
    es2 == Needed(es[..k], b) + es[k..] && n < |fs2| && fs2[n..] == fs[k..] && (n > 0 ==> fs2[n - 1] > bound)
  }

  /** Undoing the bindings back to `older` leads in both chains to the same frame, and gives every cell that must be
      trailed the same value, whatever the cells hold. */
  ghost predicate SameBack(fs: seq<int>, fs2: seq<int>, es: seq<Entry>, es2: seq<Entry>, b: Bounds, older: int,
                           c: Cells)
    requires fs != [] && fs2 != [] && |es| == |fs| - 1 && |es2| == |fs2| - 1
  {
    var k, k2 := Above(fs, older), Above(fs2, older);
    fs2[k2..] == fs[k..] && es2[k2..] == es[k..] && Agree(b, Undo(es2[..k2], c), Undo(es[..k], c))
  }

  lemma SameBackNow(fs: seq<int>, fs2: seq<int>, es: seq<Entry>, es2: seq<Entry>, b: Bounds, older: int, c: Cells)
    requires fs != [] && fs2 != [] && |es| == |fs| - 1 && |es2| == |fs2| - 1 && SameBack(fs, fs2, es, es2, b, older, c)
    ensures Agree(b, Undo(es2[..Above(fs2, older)], c), Undo(es[..Above(fs, older)], c))
  {
  }

  lemma OneAbove(fs: seq<int>, all: seq<int>, older: int)
    requires all != [] && fs != [] && fs == [fs[0]] + all && fs[0] > older
    ensures Above(fs, older) == Above(all, older) + 1
  {
  }

  // ---------------------------------------------------------------- binding and undoing

  ghost predicate Alike(c: Cells, d: Cells) {
    forall x :: Read(c, x) == Read(d, x)
  }

  lemma AlikeAgree(b: Bounds, es: seq<Entry>, c: Cells, d: Cells)
    requires Alike(c, d)
    ensures Agree(b, Undo(es, c), Undo(es, d))
  {
    UndoAgrees(es, b, c, d);
  }

  /** Binding a free variable and undoing it leaves everything as it was. */
  lemma BoundPlain(b: Bounds, es: seq<Entry>, c: Cells, addr: int, val: int)
    requires Read(c, addr) == addr
    ensures Agree(b, Undo([Plain(addr, val)] + es, c[addr := val]), Undo(es, c))
  {
    assert ([Plain(addr, val)] + es)[1..] == es;
    AlikeAgree(b, es, c[addr := val][addr := addr], c);
  }

  /** So does changing a variable and restoring its old value. */
  lemma BoundPreImage(b: Bounds, es: seq<Entry>, c: Cells, addr: int, val: int)
    ensures Agree(b, Undo([PreImage(addr, val, Read(c, addr))] + es, c[addr := val]), Undo(es, c))
  {
    var e := PreImage(addr, val, Read(c, addr));
    assert ([e] + es)[1..] == es;
    AlikeAgree(b, es, c[addr := val][addr := Read(c, addr)], c);
  }

  lemma BoundNew(b: Bounds, es: seq<Entry>, c: Cells, addr: int, val: int)
    requires !Old(b, addr)
    ensures Agree(b, Undo(es, c[addr := val]), Undo(es, c))
  {
    UndoAgrees(es, b, c[addr := val], c);
  }

  lemma NotEmpty(s: seq<int>, fs: seq<int>)
    requires Chained(s, fs)
    ensures fs != []
  {
  }

  lemma MarkIgnored(b: Bounds, s: seq<int>, t: int)
    requires Aligned(b) && 3 <= t < |s|
    ensures Conditional(b, s[t - 2]) <==> Old(b, EntryAt(s, t).addr)
  {
    if Marked(s[t - 2]) { MarkHarmless(b, s[t - 2]); }
  }

  // ---------------------------------------------------------------- what a cut means for backtracking

  ghost predicate Decreasing(fs: seq<int>) {
    forall i, j :: 0 <= i < j < |fs| ==> fs[i] > fs[j]
  }

  lemma {:induction false} ChainDecreasing(s: seq<int>, fs: seq<int>)
    requires Chained(s, fs)
    ensures Decreasing(fs)
    decreases |fs|
  {
    if |fs| > 1 {
      ChainDown(s, fs);
      ChainDecreasing(s, fs[1..]);
      assert forall i :: 0 < i < |fs| ==> fs[i] == fs[1..][i - 1];
    }
  }

  lemma {:induction false} AboveConcat(a: seq<int>, c: seq<int>, older: int)
    requires c != [] && c[0] <= older && forall x :: x in a ==> x > older
    ensures Above(a + c, older) == |a|
    decreases |a|
  {
    if a == [] {
      assert a + c == c;
    } else {
      assert (a + c)[0] == a[0] && (a + c)[1..] == a[1..] + c && a[0] in a;
      assert forall x :: x in a[1..] ==> x in a;
      AboveConcat(a[1..], c, older);
    }
  }

  lemma {:induction false} AboveSplit(fs: seq<int>, bound: int, older: int)
    requires fs != [] && fs[|fs| - 1] <= older <= bound
    ensures Above(fs, bound) <= Above(fs, older) && fs[Above(fs, older)] <= older
    ensures forall x :: x in fs[..Above(fs, older)] ==> x > older
    decreases |fs|
  {
    if |fs| > 1 && fs[0] > older {
      AboveSplit(fs[1..], bound, older);
      assert fs[..Above(fs, older)] == [fs[0]] + fs[1..][..Above(fs[1..], older)];
    }
  }

  /** Where the older frames are after the first `k0` have been replaced by `kept`. */
  lemma SamePlace(fs: seq<int>, fs2: seq<int>, kept: seq<int>, k0: nat, older: int)
    requires fs != [] && fs[|fs| - 1] <= older && k0 <= Above(fs, older) && (forall x :: x in kept ==> x > older)
    requires fs2 != [] && fs2 == kept + fs[k0..]
    ensures var k := Above(fs, older); Above(fs2, older) == |kept| + (k - k0) && fs2[Above(fs2, older)..] == fs[k..]
  {
    hide Above;
    var k := Above(fs, older);
    AboveSplit(fs, older, older);
    ThreeParts(fs, fs2, kept, k0, k);
    FrontAbove(fs, kept, k0, k, older);
    AboveConcat(kept + fs[k0..k], fs[k..], older);
  }

  lemma ThreeParts(fs: seq<int>, fs2: seq<int>, kept: seq<int>, k0: nat, k: nat)
    requires k0 <= k < |fs| && fs2 == kept + fs[k0..]
    ensures fs2 == kept + fs[k0..k] + fs[k..] && fs2[|kept| + (k - k0)..] == fs[k..]
    ensures |kept + fs[k0..k]| == |kept| + (k - k0) && fs[k..] != [] && fs[k..][0] == fs[k]
  {
  }

  lemma FrontAbove(fs: seq<int>, kept: seq<int>, k0: nat, k: nat, older: int)
    requires k0 <= k <= |fs| && (forall x :: x in kept ==> x > older) && (forall x :: x in fs[..k] ==> x > older)
    ensures forall x :: x in kept + fs[k0..k] ==> x > older
  {
    forall x | x in fs[k0..k]
      ensures x > older
    {
      InPrefix(fs, k0, k, x);
    }
  }

  lemma InPrefix(fs: seq<int>, k0: nat, k: nat, x: int)
    requires k0 <= k <= |fs| && x in fs[k0..k]
    ensures x in fs[..k]
  {
  }

  lemma Split(es: seq<Entry>, es2: seq<Entry>, kept: seq<Entry>, k0: nat, k: nat)
    requires k0 <= k <= |es| && es2 == kept + es[k0..]
    ensures var k2 := |kept| + (k - k0); k2 <= |es2| && es2[..k2] == kept + es[k0..k] && es2[k2..] == es[k..]
    ensures es[..k] == es[..k0] + es[k0..k]
  {
  }

  /** Tidying the trail at a cut is invisible to later backtracking: undoing the bindings back to any choice point as
      old as the one cut leads to the same frame, and gives every cell that must be trailed the same value. */
  lemma CutInvisible(fs: seq<int>, fs2: seq<int>, es: seq<Entry>, es2: seq<Entry>, limit: int, trfreg: int, b: Bounds,
                     older: int, c: Cells)
    requires fs != [] && fs2 != [] && |es| == |fs| - 1 && |es2| == |fs2| - 1 && Decreasing(fs) && Decreasing(fs2)
    requires var bound := Max(limit, trfreg); Tidied(fs, fs2, es, es2, Above(fs, bound), bound, b)
    requires fs[|fs| - 1] <= older <= limit
    ensures SameBack(fs, fs2, es, es2, b, older, c)
  {
    hide Decreasing, Needed, Agree, Undo;
    var bound := Max(limit, trfreg);
    var k0 := Above(fs, bound);
    var n := |Needed(es[..k0], b)|;
    CutFrames(fs, fs2, n, bound, older);
    CutAgrees(es, es2, b, k0, Above(fs, older), Above(fs2, older), c);
  }

  lemma CutFrames(fs: seq<int>, fs2: seq<int>, n: nat, bound: int, older: int)
    requires fs != [] && Decreasing(fs2) && fs[|fs| - 1] <= older <= bound
    requires n < |fs2| && fs2[n..] == fs[Above(fs, bound)..] && (n > 0 ==> fs2[n - 1] > bound)
    ensures var k0, k, k2 := Above(fs, bound), Above(fs, older), Above(fs2, older);
            k0 <= k && k2 == n + (k - k0) && fs2[k2..] == fs[k..]
  {
    hide Above, Decreasing;
    var front, k0 := fs2[..n], Above(fs, bound);
    KeptAbove(fs2, n, older);
    AboveSplit(fs, bound, older);
    Rejoin(fs2, n, fs[k0..]);
    SamePlace(fs, fs2, front, k0, older);
  }

  lemma Rejoin(s: seq<int>, n: nat, t: seq<int>)
    requires n <= |s| && s[n..] == t
    ensures s == s[..n] + t
  {
  }

  lemma KeptAbove(fs: seq<int>, n: nat, older: int)
    requires Decreasing(fs) && n <= |fs| && (n > 0 ==> fs[n - 1] > older)
    ensures forall x :: x in fs[..n] ==> x > older
  {
    forall x | x in fs[..n]
      ensures x > older
    {
      var i :| 0 <= i < n && fs[..n][i] == x;
      assert i < n - 1 ==> fs[i] > fs[n - 1];
    }
  }

  lemma CutAgrees(es: seq<Entry>, es2: seq<Entry>, b: Bounds, k0: nat, k: nat, k2: nat, c: Cells)
    requires k0 <= k <= |es| && es2 == Needed(es[..k0], b) + es[k0..] && k2 == |Needed(es[..k0], b)| + (k - k0)
    ensures k2 <= |es2| && es2[k2..] == es[k..] && Agree(b, Undo(es2[..k2], c), Undo(es[..k], c))
  {
    var kept := Needed(es[..k0], b);
    Split(es, es2, kept, k0, k);
    TidyAgrees(es[..k0], es[k0..k], b, c, c);
  }

  // ---------------------------------------------------------------- from a choice point on

  // The entries above the trail register saved in a choice point, and the cells.
  datatype Moment = Moment(es: seq<Entry>, cells: Cells)

  // What may happen while the choice point is there: bindings, a cut back to a younger choice point at entry `k`, or
  // backtracking to one.
  datatype Event = Bind(addr: int, val: int) | BindAttv(addr: int, val: int) | Cut(k: nat) | Backtrack(k: nat)

  ghost predicate Possible(m: Moment, e: Event) {
    match e
    case Bind(a, _) => Read(m.cells, a) == a
    case BindAttv(_, _) => true
    case Cut(k) => k <= |m.es|
    case Backtrack(k) => k <= |m.es|
  }

  /** The effect of an event under the bounds in force, as the engine's methods have it. */
  ghost function After(m: Moment, b: Bounds, e: Event): Moment
    requires Possible(m, e)
  {
    match e
    case Bind(a, v) => Moment((if Old(b, a) then [Plain(a, v)] else []) + m.es, m.cells[a := v])
    case BindAttv(a, v) =>
      Moment((if Old(b, a) then [PreImage(a, v, Read(m.cells, a))] else []) + m.es, m.cells[a := v])
    case Cut(k) => Moment(Needed(m.es[..k], b) + m.es[k..], m.cells)
    case Backtrack(k) => Moment(m.es[k..], Undo(m.es[..k], m.cells))
  }

  /** Bounds that protect the cells of a choice point with these registers: it is the youngest, or an older one. */
  ghost predicate Protects(b: Bounds, hreg: int, ebreg: int) {
    hreg <= b.hb && b.eb <= ebreg
  }

  ghost predicate History(hreg: int, ebreg: int, m: Moment, log: seq<(Bounds, Event)>)
    decreases |log|
  {
    log == [] ||
    (Protects(log[0].0, hreg, ebreg) && Possible(m, log[0].1) &&
     History(hreg, ebreg, After(m, log[0].0, log[0].1), log[1..]))
  }

  ghost function Last(hreg: int, ebreg: int, m: Moment, log: seq<(Bounds, Event)>): Moment
    requires History(hreg, ebreg, m, log)
    decreases |log|
  {
    if log == [] then m else Last(hreg, ebreg, After(m, log[0].0, log[0].1), log[1..])
  }

  lemma StepRestores(hreg: int, ebreg: int, m: Moment, b: Bounds, e: Event, x: int)
    requires Protects(b, hreg, ebreg) && Possible(m, e) && Existed(hreg, ebreg, x)
    ensures var m2 := After(m, b, e); Read(Undo(m2.es, m2.cells), x) == Read(Undo(m.es, m.cells), x)
  {
    hide Undo, Read, Needed;
    assert Old(b, x);
    match e
    case Bind(a, v) =>
      if Old(b, a) { BoundPlain(b, m.es, m.cells, a, v); } else { BoundNew(b, m.es, m.cells, a, v); }
      assert [] + m.es == m.es;
    case BindAttv(a, v) =>
      if Old(b, a) { BoundPreImage(b, m.es, m.cells, a, v); } else { BoundNew(b, m.es, m.cells, a, v); }
      assert [] + m.es == m.es;
    case Cut(k) =>
      assert m.es == m.es[..k] + m.es[k..];
      TidyAgrees(m.es[..k], m.es[k..], b, m.cells, m.cells);
    case Backtrack(k) =>
      assert m.es == m.es[..k] + m.es[k..];
      UndoConcat(m.es[..k], m.es[k..], m.cells);
  }

  /** The value that the cell holds, or none if it is free, as a cell that refers to itself is. */
  ghost function Held(cells: Cells, x: int): set<int> {
    if x in cells && cells[x] != x then {cells[x]} else {}
  }

  /** Whatever is bound, cut and undone while a choice point is there, backtracking to it gives every cell that existed
      when it was created the value that it had then. */
  lemma {:induction false} BacktrackingRestores(hreg: int, ebreg: int, m: Moment, log: seq<(Bounds, Event)>, x: int)
    requires History(hreg, ebreg, m, log) && Existed(hreg, ebreg, x)
    ensures var end := Last(hreg, ebreg, m, log); Read(Undo(end.es, end.cells), x) == Read(Undo(m.es, m.cells), x)
    ensures var end := Last(hreg, ebreg, m, log);
            m.es == [] ==> Held(Undo(end.es, end.cells), x) == Held(m.cells, x)
    decreases |log|
  {
    hide After, Possible, Protects, Existed;
    if log != [] {
      StepRestores(hreg, ebreg, m, log[0].0, log[0].1, x);
      BacktrackingRestores(hreg, ebreg, After(m, log[0].0, log[0].1), log[1..], x);
    }
  }
}
