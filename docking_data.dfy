/**
 * The 36-bit mask programs of day 14. Locations and values are non-negative, and
 * on non-negative operands Swift's `Int` operators `&`, `|`, `& ~` and `1 << i` are
 * the bitwise operations on naturals written out below.
 */
module DockingData {
  type Word = nat

  /** `BitsMask`: `mask` has a 1 for every 'X', `bits` a 1 for every '1'. */
  datatype BitsMask = BitsMask(mask: Word, bits: Word)

  datatype Instruction = SetMask(m: BitsMask) | Assign(loc: Word, value: Word)

  /** `Program`: the instructions, the mask in force and the memory written so far. */
  datatype Program = Program(instructions: seq<Instruction>, currentMask: BitsMask, mem: map<Word, Word>)

  const NoMask := BitsMask(0, 0)

  // Bits of naturals.

  /** Bit `i` of `x`, counting from the least significant. */
  predicate Bit(x: Word, i: nat)
  {
    if i == 0 then x % 2 == 1 else Bit(x / 2, i - 1)
  }

  function Pow2(n: nat): (p: nat)
    ensures p >= 1
  {
    if n == 0 then 1 else 2 * Pow2(n - 1)
  }

  /** `x & y` */
  function And(x: Word, y: Word): Word
    decreases x
  {
    if x == 0 then 0 else 2 * And(x / 2, y / 2) + (if x % 2 == 1 && y % 2 == 1 then 1 else 0)
  }

  /** `x | y` */
  function Or(x: Word, y: Word): Word
    decreases x + y
  {
    if x == 0 then y else if y == 0 then x
    else 2 * Or(x / 2, y / 2) + (if x % 2 == 1 || y % 2 == 1 then 1 else 0)
  }

  /** `x & ~y` */
  function Clear(x: Word, y: Word): Word
    decreases x
  {
    if x == 0 then 0 else 2 * Clear(x / 2, y / 2) + (if x % 2 == 1 && y % 2 == 0 then 1 else 0)
  }

  lemma BitSplit(q: Word, r: nat, i: nat)
    requires r < 2
    ensures Bit(2 * q + r, 0) <==> r == 1
    ensures Bit(2 * q + r, i + 1) <==> Bit(q, i)
  {
    assert (2 * q + r) / 2 == q;
  }

  lemma {:induction false} AndBit(x: Word, y: Word, i: nat)
    ensures Bit(And(x, y), i) <==> Bit(x, i) && Bit(y, i)
    decreases x
  {
    if x == 0 {
      ZeroBits(i);
    } else {
      var r := if x % 2 == 1 && y % 2 == 1 then 1 else 0;
      BitSplit(And(x / 2, y / 2), r, if i == 0 then 0 else i - 1);
      if i > 0 {
        AndBit(x / 2, y / 2, i - 1);
      }
    }
  }

  lemma {:induction false} OrBit(x: Word, y: Word, i: nat)
    ensures Bit(Or(x, y), i) <==> Bit(x, i) || Bit(y, i)
    decreases x + y
  {
    if x == 0 {
      ZeroBits(i);
    } else if y == 0 {
      ZeroBits(i);
    } else {
      var r := if x % 2 == 1 || y % 2 == 1 then 1 else 0;
      BitSplit(Or(x / 2, y / 2), r, if i == 0 then 0 else i - 1);
      if i > 0 {
        OrBit(x / 2, y / 2, i - 1);
      }
    }
  }

  lemma {:induction false} ClearBit(x: Word, y: Word, i: nat)
    ensures Bit(Clear(x, y), i) <==> Bit(x, i) && !Bit(y, i)
    decreases x
  {
    if x == 0 {
      ZeroBits(i);
    } else {
      var r := if x % 2 == 1 && y % 2 == 0 then 1 else 0;
      BitSplit(Clear(x / 2, y / 2), r, if i == 0 then 0 else i - 1);
      if i > 0 {
        ClearBit(x / 2, y / 2, i - 1);
      }
    }
  }

  lemma {:induction false} ZeroBits(i: nat)
    ensures !Bit(0, i)
  {
    if i > 0 {
      ZeroBits(i - 1);
    }
  }

  lemma {:induction false} Pow2Bit(p: nat, i: nat)
    ensures Bit(Pow2(p), i) <==> i == p
  {
    if p == 0 {
      BitSplit(0, 1, if i == 0 then 0 else i - 1);
      if i > 0 {
        ZeroBits(i - 1);
      }
    } else {
      BitSplit(Pow2(p - 1), 0, if i == 0 then 0 else i - 1);
      if i > 0 {
        Pow2Bit(p - 1, i - 1);
      }
    }
  }

  /** A number below `2^n` has no bit at `n` or above. */
  lemma {:induction false} BitsBelow(x: Word, n: nat, i: nat)
    requires x < Pow2(n) && i >= n
    ensures !Bit(x, i)
  {
    if n == 0 {
      ZeroBits(i);
    } else {
      BitSplit(x / 2, x % 2, i - 1);
      assert x == 2 * (x / 2) + x % 2;
      BitsBelow(x / 2, n - 1, i - 1);
    }
  }

  /** Two naturals with the same bits are the same natural. */
  lemma {:induction false} BitsEqual(x: Word, y: Word)
    requires forall i: nat :: Bit(x, i) <==> Bit(y, i)
    ensures x == y
    decreases x + y
  {
    assert Bit(x, 0) <==> Bit(y, 0);
    if x != y {
      forall i: nat ensures Bit(x / 2, i) <==> Bit(y / 2, i) {
        assert Bit(x, i + 1) <==> Bit(y, i + 1);
      }
      if x / 2 == y / 2 {
      } else {
        BitsEqual(x / 2, y / 2);
      }
    }
  }

  // `BitsMask`.

  /** `push`: both words shift left by one and take the new bits at the bottom. */
  function Push(m: BitsMask, maskBit: bool, bitBit: bool): BitsMask
  {
    BitsMask(2 * m.mask + (if maskBit then 1 else 0), 2 * m.bits + (if bitBit then 1 else 0))
  }

  predicate IsMaskChar(c: char)
  {
    c == 'X' || c == '1' || c == '0'
  }

  /** Every character is one of 'X', '1' and '0'. */
  predicate IsMaskText(chars: seq<char>)
  {
    forall i :: 0 <= i < |chars| ==> IsMaskChar(chars[i])
  }

  /** `fromChars`: the characters pushed from the first (most significant) to the last; any other character traps. */
  function FromChars(chars: seq<char>): (m: BitsMask)
    requires IsMaskText(chars)
    ensures m.mask < Pow2(|chars|) && m.bits < Pow2(|chars|)
  {
    if chars == [] then NoMask
    else
      var m := FromChars(chars[..|chars| - 1]);
      match chars[|chars| - 1]
      case 'X' => Push(m, true, false)
      case '1' => Push(m, false, true)
      case _ => Push(m, false, false)
  }

  /**
   * Bit `i` of `mask` is set exactly when the character `i` places from the right is 'X', and
   * of `bits` exactly when it is '1'; there are no bits above the characters.
   */
  lemma {:induction false} FromCharsBits(chars: seq<char>, i: nat)
    requires IsMaskText(chars)
    ensures Bit(FromChars(chars).mask, i) <==> i < |chars| && chars[|chars| - 1 - i] == 'X'
    ensures Bit(FromChars(chars).bits, i) <==> i < |chars| && chars[|chars| - 1 - i] == '1'
  {
    if chars == [] {
      ZeroBits(i);
    } else {
      var prefix := chars[..|chars| - 1];
      var c := chars[|chars| - 1];
      var m := FromChars(prefix);
      assert FromChars(chars) == Push(m, c == 'X', c == '1');
      var j := if i == 0 then 0 else i - 1;
      BitSplit(m.mask, if c == 'X' then 1 else 0, j);
      BitSplit(m.bits, if c == '1' then 1 else 0, j);
      if i > 0 {
        FromCharsBits(prefix, i - 1);
        if i - 1 < |prefix| {
          assert prefix[|prefix| - 1 - (i - 1)] == chars[|chars| - 1 - i];
        }
      }
    }
  }

  /** No character is both 'X' and '1', so `mask & bits == 0` for every parsed mask. */
  lemma FromCharsDisjoint(chars: seq<char>)
    requires IsMaskText(chars)
    ensures And(FromChars(chars).mask, FromChars(chars).bits) == 0
  {
    var m := FromChars(chars);
    forall i: nat ensures Bit(And(m.mask, m.bits), i) <==> Bit(0, i) {
      FromCharsBits(chars, i);
      AndBit(m.mask, m.bits, i);
      ZeroBits(i);
    }
    BitsEqual(And(m.mask, m.bits), 0);
  }

  /** No position is set in both words. */
  predicate Disjoint(m: BitsMask)
  {
    And(m.mask, m.bits) == 0
  }

  lemma DisjointBits(m: BitsMask, i: nat)
    requires Disjoint(m)
    ensures !(Bit(m.mask, i) && Bit(m.bits, i))
  {
    AndBit(m.mask, m.bits, i);
    ZeroBits(i);
  }

  /** The character of one position: 'X' for a mask bit, '1' for a bits bit, '0' otherwise. */
  function MaskChar(maskBit: bool, bitBit: bool): char
    requires !(maskBit && bitBit)
  {
    if maskBit then 'X' else if bitBit then '1' else '0'
  }

  /** No position below 36 is set in both words; `description` traps on such a position. */
  predicate DescribableBits(m: BitsMask)
  {
    forall i: nat :: i < 36 ==> !(Bit(m.mask, i) && Bit(m.bits, i))
  }

  /**
   * `description` as written: `maskShift` and `bitsShift` are never shifted, so each of the
   * 36 characters is read from bit 0.
   */
  function DescriptionAsWritten(m: BitsMask): (d: seq<char>)
    requires !(Bit(m.mask, 0) && Bit(m.bits, 0))
    ensures |d| == 36 && forall j :: 0 <= j < 36 ==> d[j] == d[0]
  {
    seq(36, _ => MaskChar(Bit(m.mask, 0), Bit(m.bits, 0)))
  }

  /** `description` as evidently intended: the 36 positions from the most significant down. */
  function Description(m: BitsMask): (d: seq<char>)
    requires DescribableBits(m)
    ensures |d| == 36 && forall j :: 0 <= j < 36 ==> IsMaskChar(d[j])
  {
    seq(36, j requires 0 <= j < 36 => MaskChar(Bit(m.mask, 35 - j), Bit(m.bits, 35 - j)))
  }

  /** Reading a description back gives the mask, for masks of 36 bits. */
  lemma FromDescription(m: BitsMask)
    requires DescribableBits(m) && m.mask < Pow2(36) && m.bits < Pow2(36)
    ensures FromChars(Description(m)) == m
  {
    var d := Description(m);
    var r := FromChars(d);
    forall i: nat ensures (Bit(r.mask, i) <==> Bit(m.mask, i)) && (Bit(r.bits, i) <==> Bit(m.bits, i)) {
      FromCharsBits(d, i);
      if i >= 36 {
        BitsBelow(m.mask, 36, i);
        BitsBelow(m.bits, 36, i);
      } else {
        assert d[35 - i] == MaskChar(Bit(m.mask, i), Bit(m.bits, i));
      }
    }
    BitsEqual(r.mask, m.mask);
    BitsEqual(r.bits, m.bits);
  }

  /** Describing a parsed mask of 36 characters gives the characters back. */
  lemma DescriptionFromChars(chars: seq<char>)
    requires |chars| == 36 && IsMaskText(chars)
    ensures FromChars(chars).mask < Pow2(36) && DescribableBits(FromChars(chars))
    ensures Description(FromChars(chars)) == chars
  {
    var m := FromChars(chars);
    forall i: nat | i < 36 ensures !(Bit(m.mask, i) && Bit(m.bits, i)) {
      FromCharsBits(chars, i);
    }
    var d := Description(m);
    forall j | 0 <= j < 36 ensures d[j] == chars[j] {
      FromCharsBits(chars, 35 - j);
      assert d[j] == MaskChar(Bit(m.mask, 35 - j), Bit(m.bits, 35 - j));
      assert chars[|chars| - 1 - (35 - j)] == chars[j];
    }
    assert d == chars;
  }

  /** The first mask of the example: its lowest character is 'X', and the written description repeats it. */
  lemma DescriptionAsWrittenRepeats(chars: seq<char>)
    requires |chars| == 36 && IsMaskText(chars)
    requires chars[35] == 'X' && chars[29] == '1'
    ensures DescriptionAsWritten(FromChars(chars)) != chars
    ensures DescribableBits(FromChars(chars)) && Description(FromChars(chars)) == chars
  {
    FromCharsBits(chars, 0);
    DescriptionFromChars(chars);
    assert DescriptionAsWritten(FromChars(chars))[29] == 'X';
  }

  // Part 1: `run`.

  /** The value `run` stores: the masked bits of `value`, with the '1' bits set. */
  function Masked(value: Word, m: BitsMask): Word
  {
    Or(And(value, m.mask), m.bits)
  }

  /** Where the mask has an 'X' the value's bit shows through; elsewhere the mask's own bit does. */
  lemma MaskedBits(value: Word, m: BitsMask, i: nat)
    requires Disjoint(m)
    ensures Bit(m.mask, i) ==> (Bit(Masked(value, m), i) <==> Bit(value, i))
    ensures !Bit(m.mask, i) ==> (Bit(Masked(value, m), i) <==> Bit(m.bits, i))
  {
    OrBit(And(value, m.mask), m.bits, i);
    AndBit(value, m.mask, i);
    DisjointBits(m, i);
  }

  /** One instruction of `run`: a mask replaces the current mask only, an assignment writes the masked value. */
  function RunStep(p: Program, instruction: Instruction): (p': Program)
    ensures p'.instructions == p.instructions
    ensures instruction.SetMask? ==> p'.currentMask == instruction.m && p'.mem == p.mem
    ensures instruction.Assign? ==>
      && p'.currentMask == p.currentMask
      && p'.mem == p.mem[instruction.loc := Masked(instruction.value, p.currentMask)]
  {
    match instruction
    case SetMask(m) => p.(currentMask := m)
    case Assign(loc, value) => p.(mem := p.mem[loc := Masked(value, p.currentMask)])
  }

  /** `run` after the instructions `done`, taken in order. */
  function RunAll(p: Program, done: seq<Instruction>): Program
  {
    if done == [] then p else RunStep(RunAll(p, done[..|done| - 1]), done[|done| - 1])
  }

  function NewProgram(instructions: seq<Instruction>): Program
  {
    Program(instructions, NoMask, map[])
  }

  /** `run`: the `forEach` over the instructions. */
  method Run(p: Program) returns (p': Program)
    ensures p' == RunAll(p, p.instructions)
  {
    p' := p;
    for k := 0 to |p.instructions|
      invariant p' == RunAll(p, p.instructions[..k])
    {
      assert p.instructions[..k + 1][..k] == p.instructions[..k];
      p' := RunStep(p', p.instructions[k]);
    }
    assert p.instructions[..|p.instructions|] == p.instructions;
  }

  /** The last mask instruction among `done`, or no mask at all. */
  function LastMask(done: seq<Instruction>): BitsMask
  {
    if done == [] then NoMask
    else if done[|done| - 1].SetMask? then done[|done| - 1].m
    else LastMask(done[..|done| - 1])
  }

  /** The position of the last assignment to `loc` among `done`, or `|done|` when there is none. */
  function LastAssign(done: seq<Instruction>, loc: Word): (k: nat)
    ensures k <= |done|
    ensures k < |done| ==>
      && done[k].Assign? && done[k].loc == loc
      && forall j :: k < j < |done| ==> !(done[j].Assign? && done[j].loc == loc)
    ensures k == |done| ==> forall j :: 0 <= j < |done| ==> !(done[j].Assign? && done[j].loc == loc)
  {
    if done == [] then 0
    else if done[|done| - 1].Assign? && done[|done| - 1].loc == loc then |done| - 1
    else
      var k := LastAssign(done[..|done| - 1], loc);
      if k == |done| - 1 then |done| else k
  }

  /**
   * After `run`, a location holds a value exactly when some instruction assigned it, and then
   * holds the last such assignment's value under the mask in force just before it.
   */
  lemma {:induction false} RunMemory(instructions: seq<Instruction>, done: seq<Instruction>, loc: Word)
    ensures var p := RunAll(NewProgram(instructions), done);
      var k := LastAssign(done, loc);
      && p.currentMask == LastMask(done)
      && (loc in p.mem <==> k < |done|)
      && (k < |done| ==> p.mem[loc] == Masked(done[k].value, LastMask(done[..k])))
  {
    if done != [] {
      var prefix := done[..|done| - 1];
      RunMemory(instructions, prefix, loc);
      var k := LastAssign(done, loc);
      var k' := LastAssign(prefix, loc);
      if k < |done| - 1 {
        assert k == k' && prefix[..k] == done[..k];
      } else if k == |done| - 1 {
        assert done[..k] == prefix;
      }
    }
  }

  // Part 2: `run2`.

  /** `floatingBits`: the positions below 36 where the mask has an 'X', in increasing order. */
  function FloatingBits(mask: Word, from: nat): (fl: seq<nat>)
    requires from <= 36
    ensures forall j :: 0 <= j < |fl| ==> from <= fl[j] < 36 && Bit(mask, fl[j])
    ensures forall j, k :: 0 <= j < k < |fl| ==> fl[j] < fl[k]
    decreases 36 - from
  {
    if from == 36 then []
    else if Bit(mask, from) then [from] + FloatingBits(mask, from + 1)
    else FloatingBits(mask, from + 1)
  }

  /**
   * The OR of every subset of the positions, each subset once: all combinations of the rest
   * without the first position, then all of them with it.
   */
  function Combinations(positions: seq<nat>): (cs: seq<Word>)
    ensures |cs| == Pow2(|positions|)
  {
    if positions == [] then [0]
    else
      var rest := Combinations(positions[1..]);
      rest + WithBit(rest, Pow2(positions[0]))
  }

  /** Each word with one more bit set. */
  function WithBit(ws: seq<Word>, bit: Word): (r: seq<Word>)
    ensures |r| == |ws| && forall i :: 0 <= i < |ws| ==> r[i] == Or(ws[i], bit)
  {
    seq(|ws|, i requires 0 <= i < |ws| => Or(ws[i], bit))
  }

  /** Every bit of `x` is an 'X' of `mask` at a position from `from` to 35. */
  ghost predicate FloatsFrom(x: Word, mask: Word, from: nat)
  {
    forall i: nat :: Bit(x, i) ==> from <= i < 36 && Bit(mask, i)
  }

  /** A list of combinations holds a word exactly when it is a combination without the first position, or one of those with it. */
  lemma CombinationsCons(positions: seq<nat>, x: Word)
    requires |positions| > 0
    ensures x in Combinations(positions) <==>
      x in Combinations(positions[1..]) || exists y :: y in Combinations(positions[1..]) && x == Or(y, Pow2(positions[0]))
  {
    var rest := Combinations(positions[1..]);
    var bit := Pow2(positions[0]);
    var added := WithBit(rest, bit);
    assert Combinations(positions) == rest + added;
    if x in added {
      var i :| 0 <= i < |added| && added[i] == x;
      assert rest[i] in rest && x == Or(rest[i], bit);
    }
    if y :| y in rest && x == Or(y, bit) {
      var i :| 0 <= i < |rest| && rest[i] == y;
      assert added[i] == x;
    }
  }

  lemma FloatsAt36(x: Word, mask: Word)
    ensures FloatsFrom(x, mask, 36) <==> x == 0
  {
    if FloatsFrom(x, mask, 36) {
      forall i: nat ensures Bit(x, i) <==> Bit(0, i) {
        ZeroBits(i);
      }
      BitsEqual(x, 0);
    }
    if x == 0 {
      forall i: nat ensures !Bit(x, i) {
        ZeroBits(i);
      }
    }
  }

  /** Adding the bit at `from` to a word of later floating bits keeps it a word of floating bits. */
  lemma FloatsWithBit(y: Word, mask: Word, from: nat)
    requires from < 36 && Bit(mask, from) && FloatsFrom(y, mask, from + 1)
    ensures FloatsFrom(Or(y, Pow2(from)), mask, from)
  {
    forall j: nat | Bit(Or(y, Pow2(from)), j) ensures from <= j < 36 && Bit(mask, j) {
      OrBit(y, Pow2(from), j);
      Pow2Bit(from, j);
    }
  }

  /** A word of floating bits from `from` on with the bit at `from` set is one of later bits with that bit added. */
  lemma FloatsWithoutBit(x: Word, mask: Word, from: nat)
    requires FloatsFrom(x, mask, from) && Bit(x, from)
    ensures FloatsFrom(Clear(x, Pow2(from)), mask, from + 1)
    ensures Or(Clear(x, Pow2(from)), Pow2(from)) == x
  {
    var y := Clear(x, Pow2(from));
    forall j: nat | Bit(y, j) ensures from + 1 <= j < 36 && Bit(mask, j) {
      ClearBit(x, Pow2(from), j);
      Pow2Bit(from, j);
    }
    forall j: nat ensures Bit(Or(y, Pow2(from)), j) <==> Bit(x, j) {
      OrBit(y, Pow2(from), j);
      ClearBit(x, Pow2(from), j);
      Pow2Bit(from, j);
    }
    BitsEqual(Or(y, Pow2(from)), x);
  }

  /** The step of `CombinationsFloat` at an 'X' position, given the claim for the later positions. */
  lemma CombinationsFloatStep(mask: Word, from: nat, later: seq<Word>, x: Word)
    requires from < 36 && Bit(mask, from)
    requires later == Combinations(FloatingBits(mask, from + 1))
    requires forall z :: z in later <==> FloatsFrom(z, mask, from + 1)
    ensures x in Combinations(FloatingBits(mask, from)) <==> FloatsFrom(x, mask, from)
  {
    var fl := FloatingBits(mask, from);
    assert fl[0] == from && fl[1..] == FloatingBits(mask, from + 1);
    CombinationsCons(fl, x);
    if y :| y in later && x == Or(y, Pow2(from)) {
      FloatsWithBit(y, mask, from);
    }
    if FloatsFrom(x, mask, from) {
      if Bit(x, from) {
        FloatsWithoutBit(x, mask, from);
        assert Clear(x, Pow2(from)) in later;
      } else {
        assert FloatsFrom(x, mask, from + 1);
      }
    }
  }

  /** The combinations of the floating bits from `from` on are exactly the words made of those bits. */
  lemma {:induction false} CombinationsFloat(mask: Word, from: nat, x: Word)
    requires from <= 36
    ensures x in Combinations(FloatingBits(mask, from)) <==> FloatsFrom(x, mask, from)
    decreases 36 - from
  {
    if from == 36 {
      FloatsAt36(x, mask);
    } else {
      var later := Combinations(FloatingBits(mask, from + 1));
      forall z ensures z in later <==> FloatsFrom(z, mask, from + 1) {
        CombinationsFloat(mask, from + 1, z);
      }
      if Bit(mask, from) {
        CombinationsFloatStep(mask, from, later, x);
      } else {
        assert FloatingBits(mask, from) == FloatingBits(mask, from + 1);
        assert FloatsFrom(x, mask, from) ==> FloatsFrom(x, mask, from + 1);
      }
    }
  }

  /** The addresses `run2` writes for `loc`: `(loc & ~mask) | combination | bits` for every combination. */
  function Addresses(loc: Word, m: BitsMask): seq<Word>
  {
    var cs := Combinations(FloatingBits(m.mask, 0));
    seq(|cs|, i requires 0 <= i < |cs| => Or(Or(Clear(loc, m.mask), cs[i]), m.bits))
  }

  /**
   * For a mask of at most 36 characters there are 2^k addresses for k 'X's, and they are
   * exactly the words that agree with `(loc & ~mask) | bits` outside the 'X' positions.
   */
  lemma AddressesSpec(loc: Word, m: BitsMask, a: Word)
    requires Disjoint(m) && m.mask < Pow2(36)
    ensures |Addresses(loc, m)| == Pow2(|FloatingBits(m.mask, 0)|)
    ensures a in Addresses(loc, m) <==> Clear(a, m.mask) == Or(Clear(loc, m.mask), m.bits)
  {
    if a in Addresses(loc, m) {
      AddressesSound(loc, m, a);
    }
    if Clear(a, m.mask) == Or(Clear(loc, m.mask), m.bits) {
      AddressesComplete(loc, m, a);
    }
  }

  lemma AddressesSound(loc: Word, m: BitsMask, a: Word)
    requires Disjoint(m) && a in Addresses(loc, m)
    ensures Clear(a, m.mask) == Or(Clear(loc, m.mask), m.bits)
  {
    var cs := Combinations(FloatingBits(m.mask, 0));
    var addrs := Addresses(loc, m);
    var i :| 0 <= i < |addrs| && addrs[i] == a;
    CombinationsFloat(m.mask, 0, cs[i]);
    forall j: nat ensures Bit(Clear(a, m.mask), j) <==> Bit(Or(Clear(loc, m.mask), m.bits), j) {
      SoundBit(loc, m, cs[i], j);
    }
    BitsEqual(Clear(a, m.mask), Or(Clear(loc, m.mask), m.bits));
  }

  /** Bit `j` of an address with its 'X' bits cleared does not depend on the combination. */
  lemma SoundBit(loc: Word, m: BitsMask, c: Word, j: nat)
    requires Disjoint(m) && FloatsFrom(c, m.mask, 0)
    ensures Bit(Clear(Or(Or(Clear(loc, m.mask), c), m.bits), m.mask), j) <==> Bit(Or(Clear(loc, m.mask), m.bits), j)
  {
    ClearBit(Or(Or(Clear(loc, m.mask), c), m.bits), m.mask, j);
    OrBit(Or(Clear(loc, m.mask), c), m.bits, j);
    OrBit(Clear(loc, m.mask), c, j);
    OrBit(Clear(loc, m.mask), m.bits, j);
    ClearBit(loc, m.mask, j);
    DisjointBits(m, j);
  }

  lemma AddressesComplete(loc: Word, m: BitsMask, a: Word)
    requires Disjoint(m) && m.mask < Pow2(36)
    requires Clear(a, m.mask) == Or(Clear(loc, m.mask), m.bits)
    ensures a in Addresses(loc, m)
  {
    var cs := Combinations(FloatingBits(m.mask, 0));
    var addrs := Addresses(loc, m);
    var c := And(a, m.mask);
    forall j: nat | Bit(c, j) ensures 0 <= j < 36 && Bit(m.mask, j) {
      AndBit(a, m.mask, j);
      if j >= 36 {
        BitsBelow(m.mask, 36, j);
      }
    }
    CombinationsFloat(m.mask, 0, c);
    var i :| 0 <= i < |cs| && cs[i] == c;
    forall j: nat ensures Bit(addrs[i], j) <==> Bit(a, j) {
      CompleteBit(loc, m, a, j);
    }
    BitsEqual(addrs[i], a);
  }

  /** Bit `j` of the address built from `a`'s own 'X' bits is bit `j` of `a`. */
  lemma CompleteBit(loc: Word, m: BitsMask, a: Word, j: nat)
    requires Disjoint(m) && Clear(a, m.mask) == Or(Clear(loc, m.mask), m.bits)
    ensures Bit(Or(Or(Clear(loc, m.mask), And(a, m.mask)), m.bits), j) <==> Bit(a, j)
  {
    OrBit(Or(Clear(loc, m.mask), And(a, m.mask)), m.bits, j);
    OrBit(Clear(loc, m.mask), And(a, m.mask), j);
    AndBit(a, m.mask, j);
    ClearBit(loc, m.mask, j);
    ClearBit(a, m.mask, j);
    OrBit(Clear(loc, m.mask), m.bits, j);
    DisjointBits(m, j);
  }

  /** Every address of `addrs` set to `value`, one after another. */
  function WriteAll(mem: map<Word, Word>, addrs: seq<Word>, value: Word): (mem': map<Word, Word>)
    ensures forall a :: a in mem' <==> a in mem || a in addrs
    ensures forall a :: a in addrs ==> mem'[a] == value
    ensures forall a :: a in mem && a !in addrs ==> mem'[a] == mem[a]
    decreases |addrs|
  {
    if addrs == [] then mem else WriteAll(mem[addrs[0] := value], addrs[1..], value)
  }

  /** The loop of `run2` over the floating addresses: each one written in turn. */
  method WriteEach(mem: map<Word, Word>, fLocs: seq<Word>, value: Word) returns (mem': map<Word, Word>)
    ensures mem' == WriteAll(mem, fLocs, value)
  {
    mem' := mem;
    for j := 0 to |fLocs|
      invariant WriteAll(mem', fLocs[j..], value) == WriteAll(mem, fLocs, value)
    {
      assert fLocs[j..][1..] == fLocs[j + 1..];
      mem' := mem'[fLocs[j] := value];
    }
    assert fLocs[|fLocs|..] == [];
  }

  /** One instruction of `run2`: a mask replaces the current mask, an assignment writes every floating address. */
  function Run2Step(p: Program, instruction: Instruction): (p': Program)
    ensures p'.instructions == p.instructions
    ensures instruction.SetMask? ==> p'.currentMask == instruction.m && p'.mem == p.mem
    ensures instruction.Assign? ==>
      && p'.currentMask == p.currentMask
      && (forall a :: a in p'.mem <==> a in p.mem || a in Addresses(instruction.loc, p.currentMask))
      && (forall a :: a in Addresses(instruction.loc, p.currentMask) ==> p'.mem[a] == instruction.value)
      && (forall a :: a in p.mem && a !in Addresses(instruction.loc, p.currentMask) ==> p'.mem[a] == p.mem[a])
  {
    match instruction
    case SetMask(m) => p.(currentMask := m)
    case Assign(loc, value) => p.(mem := WriteAll(p.mem, Addresses(loc, p.currentMask), value))
  }

  function Run2All(p: Program, done: seq<Instruction>): Program
  {
    if done == [] then p else Run2Step(Run2All(p, done[..|done| - 1]), done[|done| - 1])
  }

  /**
   * `run2`: for an assignment, the floating combinations are computed and every address is
   * written in turn. (The source's guard for an empty list of combinations never fires: the
   * empty combination is always there.)
   */
  method Run2(p: Program) returns (p': Program)
    ensures p' == Run2All(p, p.instructions)
  {
    p' := p;
    for k := 0 to |p.instructions|
      invariant p' == Run2All(p, p.instructions[..k])
    {
      assert p.instructions[..k + 1][..k] == p.instructions[..k];
      match p.instructions[k]
      case SetMask(m) =>
        p' := p'.(currentMask := m);
      case Assign(loc, value) =>
        var mem := WriteEach(p'.mem, Addresses(loc, p'.currentMask), value);
        p' := p'.(mem := mem);
    }
    assert p.instructions[..|p.instructions|] == p.instructions;
  }

  /** With no 'X' in the mask, `run2` writes the single address `loc | bits`. */
  lemma NoFloatingSingleAddress(loc: Word, m: BitsMask)
    requires m.mask == 0
    ensures Addresses(loc, m) == [Or(loc, m.bits)]
  {
    FloatingBitsAbove(0, 0);
    assert Clear(loc, 0) == loc by {
      forall j: nat ensures Bit(Clear(loc, 0), j) <==> Bit(loc, j) {
        ClearBit(loc, 0, j);
        ZeroBits(j);
      }
      BitsEqual(Clear(loc, 0), loc);
    }
    assert Or(loc, 0) == loc;
  }

  /** A mask with no bit at or above `from` has no floating bits from there on. */
  lemma {:induction false} FloatingBitsAbove(mask: Word, from: nat)
    requires from <= 36 && mask < Pow2(from)
    ensures FloatingBits(mask, from) == []
    decreases 36 - from
  {
    if from < 36 {
      BitsBelow(mask, from, from);
      FloatingBitsAbove(mask, from + 1);
    }
  }

  // The sum of the memory.

  /** `mem.values.reduce(0, +)`: the sum of the values held in memory. */
  ghost function MemSum(mem: map<Word, Word>): nat
    decreases |mem|
  {
    if mem == map[] then 0
    else
      var k :| k in mem;
      mem[k] + MemSum(mem - {k})
  }

  /** The sum does not depend on which location is taken first. */
  lemma {:induction false} MemSumRemove(mem: map<Word, Word>, k: Word)
    requires k in mem
    ensures MemSum(mem) == mem[k] + MemSum(mem - {k})
    decreases |mem|
  {
    var k' :| k' in mem && MemSum(mem) == mem[k'] + MemSum(mem - {k'});
    if k' != k {
      MemSumRemove(mem - {k'}, k);
      MemSumRemove(mem - {k}, k');
      assert mem - {k'} - {k} == mem - {k} - {k'};
    }
  }

  /** Writing a new location adds its value to the sum. */
  lemma MemSumAdd(mem: map<Word, Word>, k: Word, v: Word)
    requires k !in mem
    ensures MemSum(mem[k := v]) == v + MemSum(mem)
  {
    MemSumRemove(mem[k := v], k);
    assert mem[k := v] - {k} == mem;
  }
}
