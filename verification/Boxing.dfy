/** Numbers in cells: integers are shifted to make room for a tag, and put into a box on the heap when they do not
    fit; floats are put into a box in three parts.  Words are unsigned; integers are what machine words mean as
    signed numbers. */
module Boxing {

  datatype Arch = Bits32 | Bits64

  // The number of different machine words.
  function Words(a: Arch): (p: int)
    ensures p == 0x1_0000_0000 || p == 0x1_0000_0000_0000_0000
  {
    if a == Bits64 then 0x1_0000_0000_0000_0000 else 0x1_0000_0000
  }

  predicate IsWord(a: Arch, w: int) {
    0 <= w < Words(a)
  }

  predicate InRange(a: Arch, v: int) {
    -(Words(a) / 2) <= v < Words(a) / 2
  }

  function Unsigned(a: Arch, v: int): (w: int)
    requires InRange(a, v)
    ensures IsWord(a, w)
  {
    if v < 0 then v + Words(a) else v
  }

  function Signed(a: Arch, w: int): (v: int)
    requires IsWord(a, w)
    ensures InRange(a, v)
  {
    if w >= Words(a) / 2 then w - Words(a) else w
  }

  const TagInt: int := 2
  const TagStruct: int := 1

  function Tag(w: int): int {
    w % 8
  }

  /** Shifts an integer three bits to the left, losing what does not fit, and puts the tag there. */
  function MakeInt(a: Arch, v: int): (w: int)
    requires InRange(a, v)
    ensures IsWord(a, w) && Tag(w) == TagInt
  {
    var s := 8 * Unsigned(a, v) % Words(a);
    ShiftFits(a, Unsigned(a, v));
    s + TagInt
  }

  lemma ShiftFits(a: Arch, u: int)
    requires IsWord(a, u)
    ensures var s := 8 * u % Words(a); 0 <= s <= Words(a) - 8 && s % 8 == 0
  {
  }

  /** Shifts a tagged word back; the highest bit stays. */
  function IntVal(a: Arch, w: int): (v: int)
    requires IsWord(a, w)
    ensures InRange(a, v)
  {
    Signed(a, w) / 8
  }

  predicate IntOverflow(a: Arch, v: int)
    requires InRange(a, v)
  {
    IntVal(a, MakeInt(a, v)) != v
  }

  /** The tagged form keeps exactly the integers that need three bits less. */
  lemma OverflowIff(a: Arch, v: int)
    requires InRange(a, v)
    ensures IntOverflow(a, v) <==> !(-(Words(a) / 16) <= v < Words(a) / 16)
  {
    if a == Bits64 { Overflow64(v); } else { Overflow32(v); }
  }

  lemma Overflow64(v: int)
    requires InRange(Bits64, v)
    ensures IntOverflow(Bits64, v) <==> !(-(Words(Bits64) / 16) <= v < Words(Bits64) / 16)
  {
    assert IntVal(Bits64, MakeInt(Bits64, v)) ==
           Signed(Bits64, 8 * Unsigned(Bits64, v) % 0x1_0000_0000_0000_0000 + 2) / 8;
  }

  lemma Overflow32(v: int)
    requires InRange(Bits32, v)
    ensures IntOverflow(Bits32, v) <==> !(-(Words(Bits32) / 16) <= v < Words(Bits32) / 16)
  {
    assert IntVal(Bits32, MakeInt(Bits32, v)) == Signed(Bits32, 8 * Unsigned(Bits32, v) % 0x1_0000_0000 + 2) / 8;
  }

  // ---------------------------------------------------------------- boxes

  const Low24: int := 0x100_0000
  const Low16: int := 0x1_0000
  const IdBoxedInt: int := 1
  const IdBoxedFloat: int := 2

  // A float as the machine holds it: one word, or two of 32 bits.
  datatype Float = One(w: int) | Two(high: int, low: int)

  predicate IsFloat(a: Arch, f: Float) {
    match f
    case One(w) => a == Bits64 && IsWord(a, w)
    case Two(h, l) => a == Bits32 && IsWord(a, h) && IsWord(a, l)
  }

  function High16(f: Float): int {
    match f case One(w) => w / 0x1_0000_0000_0000 % Low16 case Two(h, _) => h / 0x1_0000 % Low16
  }

  function Middle24(f: Float): int {
    match f case One(w) => w / Low24 % Low24 case Two(h, l) => l / Low24 + h % Low16 * 256
  }

  function Low24Bits(f: Float): int {
    match f case One(w) => w % Low24 case Two(_, l) => l % Low24
  }

  /** The three parts put together again; the box identifier is above the part that counts of the first. */
  function Extract(a: Arch, high: int, middle: int, low: int): Float {
    if a == Bits64
    then One(high % Low16 * 0x1_0000_0000_0000 + middle % Low24 * Low24 + low % Low24)
    else Two(high % Low16 * 0x1_0000 + middle / 256, middle * Low24 % 0x1_0000_0000 + low)
  }

  lemma PartsFit(a: Arch, f: Float)
    requires IsFloat(a, f)
    ensures 0 <= High16(f) < Low16 && 0 <= Middle24(f) < Low24 && 0 <= Low24Bits(f) < Low24
  {
  }

  /** Splitting a float into 16, 24 and 24 bits and putting it together again gives back every bit. */
  lemma ExtractSplit(a: Arch, f: Float)
    requires IsFloat(a, f)
    ensures Extract(a, IdBoxedFloat * Low16 + High16(f), Middle24(f), Low24Bits(f)) == f
  {
    match f
    case One(w) => Split64(w);
    case Two(h, l) => Split32(h, l);
  }

  lemma Split64(w: int)
    requires 0 <= w < 0x1_0000_0000_0000_0000
    ensures Extract(Bits64, IdBoxedFloat * Low16 + High16(One(w)), Middle24(One(w)), Low24Bits(One(w))) == One(w)
  {
    Join64(w);
    var x, y, z := w / 0x1_0000_0000_0000 % Low16, w / Low24 % Low24, w % Low24;
    assert 0 <= x < Low16 && 0 <= y < Low24 && 0 <= z < Low24;
    Unchanged64(x, y, z);
  }

  lemma Unchanged64(x: int, y: int, z: int)
    requires 0 <= x < Low16 && 0 <= y < Low24 && 0 <= z < Low24
    ensures (IdBoxedFloat * Low16 + x) % Low16 == x && y % Low24 == y && z % Low24 == z
  {
  }

  lemma Split32(h: int, l: int)
    requires 0 <= h < 0x1_0000_0000 && 0 <= l < 0x1_0000_0000
    ensures Extract(Bits32, IdBoxedFloat * Low16 + High16(Two(h, l)), Middle24(Two(h, l)), Low24Bits(Two(h, l))) ==
            Two(h, l)
  {
    Join32(h, l);
    var x := h / 0x1_0000 % Low16;
    assert 0 <= x < Low16;
    Unchanged64(x, 0, 0);
  }

  lemma Join64(w: int)
    requires 0 <= w < 0x1_0000_0000_0000_0000
    ensures w / 0x1_0000_0000_0000 % Low16 * 0x1_0000_0000_0000 + w / Low24 % Low24 * Low24 + w % Low24 == w
  {
    var q := w / Low24;
    assert q / Low24 == w / 0x1_0000_0000_0000;
    assert q == q / Low24 * Low24 + q % Low24 && w == q * Low24 + w % Low24;
  }

  lemma Join32(h: int, l: int)
    requires 0 <= h < 0x1_0000_0000 && 0 <= l < 0x1_0000_0000
    ensures var m := l / Low24 + h % Low16 * 256;
            h / 0x1_0000 % Low16 * 0x1_0000 + m / 256 == h && m * Low24 % 0x1_0000_0000 + l % Low24 == l
  {
    var m := l / Low24 + h % Low16 * 256;
    assert l / Low24 < 256 && m / 256 == h % Low16;
    assert m * Low24 == l / Low24 * Low24 + h % Low16 * 0x1_0000_0000;
  }

  // ---------------------------------------------------------------- the heap

  /** The heap: words, addressed by their number; a structure is referred to by eight times its number and a tag. */
  class Heap {
    const arch: Arch
    const boxPsc: int
    const cells: array<int>
    var hreg: nat

    ghost predicate Valid()
      reads this, cells
    {
      && hreg <= cells.Length && 8 * cells.Length <= Words(arch) && IsWord(arch, boxPsc)
      && forall i :: 0 <= i < cells.Length ==> IsWord(arch, cells[i])
    }

    predicate IsInteger(w: int) {
      Tag(w) == TagInt
    }

    /** The word refers to a box with the given identifier. */
    predicate IsBoxed(w: int, id: int)
      requires Valid()
      reads this, cells
    {
      Tag(w) == TagStruct && 0 <= w / 8 && w / 8 + 3 < hreg && cells[w / 8] == boxPsc &&
      IntVal(arch, cells[w / 8 + 1]) / Low16 == id
    }

    function OintVal(w: int): int
      requires Valid() && IsWord(arch, w)
      reads this, cells
    {
      if IsInteger(w) then IntVal(arch, w)
      else if IsBoxed(w, IdBoxedInt) then BoxedIntVal(w)
      else 0x8000_0000
    }

    function BoxedIntVal(w: int): int
      requires Valid() && IsBoxed(w, IdBoxedInt)
      reads this, cells
    {
      var hi, lo := IntVal(arch, cells[w / 8 + 2]), IntVal(arch, cells[w / 8 + 3]);
      Signed(arch, (hi * Low24 % Words(arch) + lo) % Words(arch))
    }

    function BoxedFloatVal(w: int): Float
      requires Valid() && IsBoxed(w, IdBoxedFloat)
      reads this, cells
    {
      Extract(arch, IntVal(arch, cells[w / 8 + 1]), IntVal(arch, cells[w / 8 + 2]), IntVal(arch, cells[w / 8 + 3]))
    }

    /** Puts a box with three integers on the heap. */
    method NewBox(x: int, y: int, z: int) returns (w: int)
      requires Valid() && hreg + 4 <= cells.Length
      requires 0 <= x < Words(arch) / 16 && 0 <= y < Words(arch) / 16 && 0 <= z < Words(arch) / 16
      modifies this`hreg, cells
      ensures Valid() && hreg == old(hreg) + 4 && w == 8 * old(hreg) + TagStruct
      ensures cells[old(hreg)] == boxPsc && IntVal(arch, cells[old(hreg) + 1]) == x
      ensures IntVal(arch, cells[old(hreg) + 2]) == y && IntVal(arch, cells[old(hreg) + 3]) == z
      ensures forall i :: 0 <= i < old(hreg) ==> cells[i] == old(cells[i])
    {
      OverflowIff(arch, x);
      OverflowIff(arch, y);
      OverflowIff(arch, z);
      w := 8 * hreg + TagStruct;
      cells[hreg] := boxPsc;
      cells[hreg + 1] := MakeInt(arch, x);
      cells[hreg + 2] := MakeInt(arch, y);
      cells[hreg + 3] := MakeInt(arch, z);
      hreg := hreg + 4;
    }

    /** Puts an integer into a cell, in a box if its tagged form would not keep it. */
    method BldOint(addr: nat, value: int)
      requires Valid() && hreg + 4 <= cells.Length && addr < hreg && InRange(arch, value)
      modifies this`hreg, cells
      ensures Valid() && OintVal(cells[addr]) == value
      ensures IsInteger(cells[addr]) <==> -(Words(arch) / 16) <= value < Words(arch) / 16
      ensures !IsInteger(cells[addr]) ==> IsBoxed(cells[addr], IdBoxedInt)
      ensures forall i :: 0 <= i < old(hreg) && i != addr ==> cells[i] == old(cells[i])
    {
      OverflowIff(arch, value);
      if IntOverflow(arch, value) {
        BldBoxedInt(addr, value);
      } else {
        cells[addr] := MakeInt(arch, value);
      }
    }

    /** Puts an integer into a cell, in a box. */
    method BldBoxedInt(addr: nat, value: int)
      requires Valid() && hreg + 4 <= cells.Length && addr < hreg && InRange(arch, value)
      modifies this`hreg, cells
      ensures Valid() && IsBoxed(cells[addr], IdBoxedInt) && BoxedIntVal(cells[addr]) == value
      ensures forall i :: 0 <= i < old(hreg) && i != addr ==> cells[i] == old(cells[i])
    {
      hide IntVal, Signed, Unsigned, Words;
      var u := Unsigned(arch, value);
      HalvesFit(arch, u);
      SignBack(arch, value);
      assert (IdBoxedInt * Low16) / Low16 == IdBoxedInt;
      var w := NewBox(IdBoxedInt * Low16, u / Low24, u % Low24);
      cells[addr] := w;
    }

    /** Puts a float into a cell, in a box. */
    method BldBoxedFloat(addr: nat, f: Float)
      requires Valid() && hreg + 4 <= cells.Length && addr < hreg && IsFloat(arch, f)
      modifies this`hreg, cells
      ensures Valid() && IsBoxed(cells[addr], IdBoxedFloat) && BoxedFloatVal(cells[addr]) == f
      ensures forall i :: 0 <= i < old(hreg) && i != addr ==> cells[i] == old(cells[i])
    {
      PartsFit(arch, f);
      ExtractSplit(arch, f);
      var w := NewBox(IdBoxedFloat * Low16 + High16(f), Middle24(f), Low24Bits(f));
      cells[addr] := w;
    }
  }

  lemma SignBack(a: Arch, v: int)
    requires InRange(a, v)
    ensures Signed(a, Unsigned(a, v)) == v && 0 <= IdBoxedInt * Low16 < Words(a) / 16
  {
  }

  lemma HalvesFit(a: Arch, u: int)
    requires IsWord(a, u)
    ensures 0 <= u / Low24 < Words(a) / 16 && 0 <= u % Low24 < Words(a) / 16
    ensures (u / Low24 * Low24 % Words(a) + u % Low24) % Words(a) == u
  {
  }
}
