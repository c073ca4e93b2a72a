/** The two example programs of day 14: `run` leaves a sum of 165, `run2` a sum of 208. */
module DockingDataExample {
  import opened DockingData

  const Mask1Text := "XXXXXXXXXXXXXXXXXXXXXXXXXXXXX1XXXX0X"
  const Mask2Text := "000000000000000000000000000000X1001X"
  const Mask3Text := "00000000000000000000000000000000X0XX"

  /** A run of 'X' characters is a mask of ones with no bits. */
  lemma {:induction false} AllFloating(n: nat)
    ensures FromChars(seq(n, _ => 'X')) == BitsMask(Pow2(n) - 1, 0)
  {
    if n > 0 {
      AllFloating(n - 1);
      assert seq(n, _ => 'X')[..n - 1] == seq(n - 1, _ => 'X');
    }
  }

  /** A run of '0' characters is the empty mask. */
  lemma {:induction false} AllZero(n: nat)
    ensures FromChars(seq(n, _ => '0')) == NoMask
  {
    if n > 0 {
      AllZero(n - 1);
      assert seq(n, _ => '0')[..n - 1] == seq(n - 1, _ => '0');
    }
  }

  /** `hi` placed `n` positions above `lo`. */
  function Above(hi: BitsMask, n: nat, lo: BitsMask): BitsMask
  {
    BitsMask(hi.mask * Pow2(n) + lo.mask, hi.bits * Pow2(n) + lo.bits)
  }

  /** Pushing onto a combination pushes onto its lower part. */
  lemma PushAbove(hi: BitsMask, n: nat, lo: BitsMask, maskBit: bool, bitBit: bool)
    ensures Push(Above(hi, n, lo), maskBit, bitBit) == Above(hi, n + 1, Push(lo, maskBit, bitBit))
  {
    var p := Pow2(n);
    assert Pow2(n + 1) == 2 * p;
    assert 2 * (hi.mask * p) == hi.mask * (2 * p);
    assert 2 * (hi.bits * p) == hi.bits * (2 * p);
  }

  lemma MaskTextAppend(a: seq<char>, b: seq<char>)
    requires IsMaskText(a) && IsMaskText(b)
    ensures IsMaskText(a + b)
  {
    forall i | 0 <= i < |a + b| ensures IsMaskChar((a + b)[i]) {
      if i >= |a| {
        assert (a + b)[i] == b[i - |a|];
      }
    }
  }

  /** The characters of `b` are pushed after those of `a`, so `a` ends up `|b|` places higher. */
  lemma {:induction false} FromCharsAppend(a: seq<char>, b: seq<char>)
    requires IsMaskText(a) && IsMaskText(b)
    ensures IsMaskText(a + b)
    ensures FromChars(a + b) == Above(FromChars(a), |b|, FromChars(b))
  {
    MaskTextAppend(a, b);
    if b == [] {
      assert a + b == a;
    } else {
      var b' := b[..|b| - 1];
      var c := b[|b| - 1];
      assert b == b' + [c] && IsMaskChar(c);
      MaskTextAppend(a, b');
      calc {
        FromChars(a + b);
        { assert a + b == (a + b') + [c]; }
        FromChars((a + b') + [c]);
        { FromCharsSnoc(a + b', c); }
        Push(FromChars(a + b'), c == 'X', c == '1');
        { FromCharsAppend(a, b'); }
        Push(Above(FromChars(a), |b'|, FromChars(b')), c == 'X', c == '1');
        { PushAbove(FromChars(a), |b'|, FromChars(b'), c == 'X', c == '1'); }
        Above(FromChars(a), |b'| + 1, Push(FromChars(b'), c == 'X', c == '1'));
        { FromCharsSnoc(b', c); }
        Above(FromChars(a), |b|, FromChars(b));
      }
    }
  }

  /** One character more is one push more. */
  lemma FromCharsSnoc(a: seq<char>, c: char)
    requires IsMaskText(a) && IsMaskChar(c)
    ensures IsMaskText(a + [c])
    ensures FromChars(a + [c]) == Push(FromChars(a), c == 'X', c == '1')
  {
    assert (a + [c])[..|a|] == a;
  }

  lemma Pow2Values()
    ensures Pow2(7) == 128 && Pow2(29) == 536870912
  {
    assert Pow2(1) == 2;
    assert Pow2(2) == 4;
    assert Pow2(3) == 8;
    assert Pow2(4) == 16;
    assert Pow2(5) == 32;
    assert Pow2(6) == 64;
    assert Pow2(7) == 128;
    assert Pow2(8) == 256;
    assert Pow2(9) == 512;
    assert Pow2(10) == 1024;
    assert Pow2(11) == 2048;
    assert Pow2(12) == 4096;
    assert Pow2(13) == 8192;
    assert Pow2(14) == 16384;
    assert Pow2(15) == 32768;
    assert Pow2(16) == 65536;
    assert Pow2(17) == 131072;
    assert Pow2(18) == 262144;
    assert Pow2(19) == 524288;
    assert Pow2(20) == 1048576;
    assert Pow2(21) == 2097152;
    assert Pow2(22) == 4194304;
    assert Pow2(23) == 8388608;
    assert Pow2(24) == 16777216;
    assert Pow2(25) == 33554432;
    assert Pow2(26) == 67108864;
    assert Pow2(27) == 134217728;
    assert Pow2(28) == 268435456;
    assert Pow2(29) == 536870912;
  }

  lemma Mask1(s: seq<char>)
    requires s == Mask1Text
    ensures IsMaskText(s)
    ensures FromChars(s) == BitsMask(68719476669, 64)
  {
    var ones := seq(29, _ => 'X');
    assert s == ones + "1XXXX0X";
    AllFloating(29);
    Mask1Suffix();
    FromCharsAppend(ones, "1XXXX0X");
    Pow2Values();
  }

  lemma Mask1Suffix()
    ensures IsMaskText("1XXXX0X") && FromChars("1XXXX0X") == BitsMask(61, 64)
  {
    FromCharsSnoc([], '1');
    assert [] + ['1'] == "1";
    FromCharsSnoc("1", 'X');
    assert "1" + ['X'] == "1X";
    FromCharsSnoc("1X", 'X');
    assert "1X" + ['X'] == "1XX";
    FromCharsSnoc("1XX", 'X');
    assert "1XX" + ['X'] == "1XXX";
    FromCharsSnoc("1XXX", 'X');
    assert "1XXX" + ['X'] == "1XXXX";
    FromCharsSnoc("1XXXX", '0');
    assert "1XXXX" + ['0'] == "1XXXX0";
    FromCharsSnoc("1XXXX0", 'X');
    assert "1XXXX0" + ['X'] == "1XXXX0X";
  }

  lemma Mask2(s: seq<char>)
    requires s == Mask2Text
    ensures IsMaskText(s)
    ensures FromChars(s) == BitsMask(33, 18)
  {
    var zeros := seq(30, _ => '0');
    assert s == zeros + "X1001X";
    AllZero(30);
    Mask2Suffix();
    FromCharsAppend(zeros, "X1001X");
    assert Pow2(6) == 64;
  }

  lemma Mask2Suffix()
    ensures IsMaskText("X1001X") && FromChars("X1001X") == BitsMask(33, 18)
  {
    FromCharsSnoc([], 'X');
    assert [] + ['X'] == "X";
    FromCharsSnoc("X", '1');
    assert "X" + ['1'] == "X1";
    FromCharsSnoc("X1", '0');
    assert "X1" + ['0'] == "X10";
    FromCharsSnoc("X10", '0');
    assert "X10" + ['0'] == "X100";
    FromCharsSnoc("X100", '1');
    assert "X100" + ['1'] == "X1001";
    FromCharsSnoc("X1001", 'X');
    assert "X1001" + ['X'] == "X1001X";
  }

  lemma Mask3(s: seq<char>)
    requires s == Mask3Text
    ensures IsMaskText(s)
    ensures FromChars(s) == BitsMask(11, 0)
  {
    var zeros := seq(32, _ => '0');
    assert s == zeros + "X0XX";
    AllZero(32);
    Mask3Suffix();
    FromCharsAppend(zeros, "X0XX");
    assert Pow2(4) == 16;
  }

  lemma Mask3Suffix()
    ensures IsMaskText("X0XX") && FromChars("X0XX") == BitsMask(11, 0)
  {
    FromCharsSnoc([], 'X');
    assert [] + ['X'] == "X";
    FromCharsSnoc("X", '0');
    assert "X" + ['0'] == "X0";
    FromCharsSnoc("X0", 'X');
    assert "X0" + ['X'] == "X0X";
    FromCharsSnoc("X0X", 'X');
    assert "X0X" + ['X'] == "X0XX";
  }

  /** The three masks parse as expected. */
  lemma ExampleMasks()
    ensures IsMaskText(Mask1Text) && IsMaskText(Mask2Text) && IsMaskText(Mask3Text)
    ensures FromChars(Mask1Text) == BitsMask(68719476669, 64)
    ensures FromChars(Mask2Text) == BitsMask(33, 18)
    ensures FromChars(Mask3Text) == BitsMask(11, 0)
  {
    Mask1(Mask1Text);
    Mask2(Mask2Text);
    Mask3(Mask3Text);
  }

  /**
   * The first mask's description: the written `description` repeats the lowest character,
   * 'X', 36 times, while the corrected one gives the mask text back.
   */
  lemma ExampleDescription()
    ensures IsMaskText(Mask1Text)
    ensures DescriptionAsWritten(FromChars(Mask1Text)) == seq(36, _ => 'X') != Mask1Text
    ensures DescribableBits(FromChars(Mask1Text)) && Description(FromChars(Mask1Text)) == Mask1Text
  {
    DescriptionOn(Mask1Text);
  }

  lemma DescriptionOn(s: seq<char>)
    requires s == Mask1Text
    ensures IsMaskText(s)
    ensures DescriptionAsWritten(FromChars(s)) == seq(36, _ => 'X') != s
    ensures DescribableBits(FromChars(s)) && Description(FromChars(s)) == s
  {
    Mask1(s);
    assert s[35] == 'X' && s[29] == '1';
    DescriptionAsWrittenRepeats(s);
    FromCharsBits(s, 0);
    assert DescriptionAsWritten(FromChars(s))[0] == 'X';
  }

  const Program1 := [SetMask(BitsMask(68719476669, 64)), Assign(8, 11), Assign(7, 101), Assign(8, 0)]

  /** `run` writes 73, 101 and then 64 over the 73, so the memory sums to 165. */
  lemma ExampleRun()
    ensures RunAll(NewProgram(Program1), Program1).mem == map[8 := 64, 7 := 101]
    ensures MemSum(RunAll(NewProgram(Program1), Program1).mem) == 165
  {
    RunOn(Program1);
    ExampleSum();
  }

  lemma ExampleSum()
    ensures MemSum(map[8 := 64, 7 := 101]) == 165
  {
    MemSumAdd(map[], 8, 64);
    MemSumAdd(map[8 := 64], 7, 101);
  }

  lemma RunOn(p: seq<Instruction>)
    requires p == Program1
    ensures RunAll(NewProgram(p), p).mem == map[8 := 64, 7 := 101]
  {
    var start := NewProgram(p);
    RunTwoOn(p);
    RunPrefix(start, p, 2);
    Masked101();
    Masked0();
    assert RunAll(start, p[..3]).mem == map[8 := 73][7 := 101];
    RunPrefix(start, p, 3);
    assert RunAll(start, p[..4]).mem == map[8 := 73][7 := 101][8 := 64];
    assert map[8 := 73][7 := 101][8 := 64] == map[8 := 64, 7 := 101];
    assert p[..4] == p;
  }

  /** After the mask and the first assignment. */
  lemma RunTwoOn(p: seq<Instruction>)
    requires p == Program1
    ensures RunAll(NewProgram(p), p[..2]) == Program(p, BitsMask(68719476669, 64), map[8 := 73])
  {
    var start := NewProgram(p);
    RunPrefix(start, p, 0);
    assert RunAll(start, p[..1]) == Program(p, BitsMask(68719476669, 64), map[]);
    RunPrefix(start, p, 1);
    Masked11();
  }

  lemma Masked11()
    ensures Masked(11, BitsMask(68719476669, 64)) == 73
  {
  }

  lemma Masked0()
    ensures Masked(0, BitsMask(68719476669, 64)) == 64
  {
  }

  /** 101 has bit 1 clear and bit 6 set already, so the mask leaves it as it is. */
  lemma Masked101()
    ensures Masked(101, BitsMask(68719476669, 64)) == 101
  {
    And101();
    Or37();
  }

  lemma And101()
    ensures And(101, 68719476669) == 37
  {
    assert And(0, 536870911) == 0;
    assert And(1, 1073741822) == 0;
    assert And(3, 2147483645) == 1;
    assert And(6, 4294967291) == 2;
    assert And(12, 8589934583) == 4;
    assert And(25, 17179869167) == 9;
    assert And(50, 34359738334) == 18;
  }

  lemma Or37()
    ensures Or(37, 64) == 101
  {
    assert Or(1, 2) == 3;
    assert Or(2, 4) == 6;
    assert Or(4, 8) == 12;
    assert Or(9, 16) == 25;
    assert Or(18, 32) == 50;
  }

  /** One instruction more is one step more. */
  lemma RunPrefix(start: Program, p: seq<Instruction>, k: nat)
    requires k < |p|
    ensures RunAll(start, p[..k + 1]) == RunStep(RunAll(start, p[..k]), p[k])
    ensures RunAll(start, p[..0]) == start
  {
    assert p[..k + 1][..k] == p[..k];
  }

  /** The floating addresses of the example: two 'X's give four addresses, three give eight. */
  lemma ExampleAddresses()
    ensures Addresses(42, BitsMask(33, 18)) == [26, 58, 27, 59]
    ensures Addresses(26, BitsMask(11, 0)) == [16, 24, 18, 26, 17, 25, 19, 27]
  {
    Floating33();
    Floating11();
    Clear42();
    Clear26();
    Addresses42(42, BitsMask(33, 18));
    Addresses26(26, BitsMask(11, 0));
  }

  lemma Floating33()
    ensures Combinations(FloatingBits(33, 0)) == [0, 32, 1, 33]
  {
    FloatingBits33();
    Pow2Small();
    WithBit1(0, 32, 32);
    assert Combinations([5]) == [0, 32] by {
      assert [5][1..] == [];
    }
    assert Or(0, 1) == 1 && Or(32, 1) == 33 by {
      assert Or(16, 0) == 16;
    }
    WithBit2(0, 32, 1, 33, 1);
    assert [0, 5][1..] == [5];
  }

  lemma Floating11()
    ensures Combinations(FloatingBits(11, 0)) == [0, 8, 2, 10, 1, 9, 3, 11]
  {
    FloatingBits11();
    Pow2Small();
    OrValues11();
    WithBit1(0, 8, 8);
    assert Combinations([3]) == [0, 8] by {
      assert [3][1..] == [];
    }
    WithBit2(0, 8, 2, 10, 2);
    assert Combinations([1, 3]) == [0, 8, 2, 10] by {
      assert [1, 3][1..] == [3];
    }
    WithBit4(0, 8, 2, 10, 1, 9, 3, 11, 1);
    assert [0, 1, 3][1..] == [1, 3];
  }

  lemma FloatingBits33()
    ensures FloatingBits(33, 0) == [0, 5]
  {
    assert Pow2(6) == 64 by { Pow2Values(); }
    FloatingBitsAbove(33, 6);
    assert Bit(33, 0) && !Bit(33, 1) && !Bit(33, 2) && !Bit(33, 3) && !Bit(33, 4) && Bit(33, 5) by {
      assert Bit(1, 0) && Bit(2, 1) && Bit(4, 2) && Bit(8, 3) && Bit(16, 4);
      assert !Bit(16, 0) && !Bit(8, 0) && !Bit(4, 0) && !Bit(2, 0);
      assert !Bit(16, 1) && !Bit(8, 1) && !Bit(4, 1);
      assert !Bit(16, 2) && !Bit(8, 2);
      assert !Bit(16, 3);
    }
    assert FloatingBits(33, 5) == [5];
    assert FloatingBits(33, 1) == [5];
  }

  lemma FloatingBits11()
    ensures FloatingBits(11, 0) == [0, 1, 3]
  {
    assert Pow2(4) == 16 by { Pow2Small(); }
    FloatingBitsAbove(11, 4);
    assert Bit(11, 0) && Bit(11, 1) && !Bit(11, 2) && Bit(11, 3) by {
      assert Bit(1, 0) && Bit(2, 1) && Bit(5, 0) && !Bit(2, 0) && !Bit(5, 1);
    }
    assert FloatingBits(11, 3) == [3];
    assert FloatingBits(11, 2) == [3];
    assert FloatingBits(11, 1) == [1, 3];
  }

  lemma Pow2Small()
    ensures Pow2(0) == 1 && Pow2(1) == 2 && Pow2(2) == 4 && Pow2(3) == 8 && Pow2(4) == 16 && Pow2(5) == 32
  {
  }

  lemma OrValues11()
    ensures Or(0, 8) == 8 && Or(0, 2) == 2 && Or(8, 2) == 10
    ensures Or(0, 1) == 1 && Or(8, 1) == 9 && Or(2, 1) == 3 && Or(10, 1) == 11
  {
    assert Or(2, 0) == 2;
    assert Or(4, 1) == 5;
    assert Or(8, 2) == 10;
    assert Or(4, 0) == 4;
    assert Or(8, 1) == 9;
    assert Or(1, 0) == 1;
    assert Or(2, 1) == 3;
    assert Or(5, 0) == 5;
    assert Or(10, 1) == 11;
  }

  lemma WithBit1(r0: Word, s0: Word, bit: Word)
    requires s0 == Or(r0, bit)
    ensures WithBit([r0], bit) == [s0]
  {
  }

  lemma WithBit2(r0: Word, r1: Word, s0: Word, s1: Word, bit: Word)
    requires s0 == Or(r0, bit) && s1 == Or(r1, bit)
    ensures WithBit([r0, r1], bit) == [s0, s1]
  {
  }

  lemma WithBit4(r0: Word, r1: Word, r2: Word, r3: Word, s0: Word, s1: Word, s2: Word, s3: Word, bit: Word)
    requires s0 == Or(r0, bit) && s1 == Or(r1, bit) && s2 == Or(r2, bit) && s3 == Or(r3, bit)
    ensures WithBit([r0, r1, r2, r3], bit) == [s0, s1, s2, s3]
  {
  }

  /** The addresses, entry by entry, from the combinations and the cleared location. */
  lemma AddressesFrom(loc: Word, m: BitsMask, cs: seq<Word>, cleared: Word, addrs: seq<Word>)
    requires Combinations(FloatingBits(m.mask, 0)) == cs && Clear(loc, m.mask) == cleared
    requires |addrs| == |cs| && forall i :: 0 <= i < |cs| ==> addrs[i] == Or(Or(cleared, cs[i]), m.bits)
    ensures Addresses(loc, m) == addrs
  {
  }

  lemma Addresses42(loc: Word, m: BitsMask)
    requires Clear(loc, m.mask) == 10 && m.bits == 18
    requires Combinations(FloatingBits(m.mask, 0)) == [0, 32, 1, 33]
    ensures Addresses(loc, m) == [26, 58, 27, 59]
  {
    OrValues42();
    AddressesFrom4(loc, m, 10, 0, 32, 1, 33, 26, 58, 27, 59);
  }

  /** Four addresses from four combinations. */
  lemma AddressesFrom4(loc: Word, m: BitsMask, cleared: Word, c0: Word, c1: Word, c2: Word, c3: Word,
                       a0: Word, a1: Word, a2: Word, a3: Word)
    requires Combinations(FloatingBits(m.mask, 0)) == [c0, c1, c2, c3] && Clear(loc, m.mask) == cleared
    requires a0 == Or(Or(cleared, c0), m.bits) && a1 == Or(Or(cleared, c1), m.bits)
    requires a2 == Or(Or(cleared, c2), m.bits) && a3 == Or(Or(cleared, c3), m.bits)
    ensures Addresses(loc, m) == [a0, a1, a2, a3]
  {
    AddressesFrom(loc, m, [c0, c1, c2, c3], cleared, [a0, a1, a2, a3]);
  }

  lemma Clear42()
    ensures Clear(42, 33) == 10
  {
    assert Clear(0, 0) == 0;
    assert Clear(1, 1) == 0;
    assert Clear(2, 2) == 0;
    assert Clear(5, 4) == 1;
    assert Clear(10, 8) == 2;
    assert Clear(21, 16) == 5;
    assert Clear(42, 33) == 10;
  }

  lemma Clear26()
    ensures Clear(26, 11) == 16
  {
    assert Clear(0, 0) == 0;
    assert Clear(1, 0) == 1;
    assert Clear(3, 1) == 2;
    assert Clear(6, 2) == 4;
    assert Clear(13, 5) == 8;
    assert Clear(26, 11) == 16;
  }

  lemma OrValues42()
    ensures Or(Or(10, 0), 18) == 26 && Or(Or(10, 32), 18) == 58
    ensures Or(Or(10, 1), 18) == 27 && Or(Or(10, 33), 18) == 59
  {
    assert Or(0, 1) == 1;
    assert Or(1, 2) == 3;
    assert Or(2, 4) == 6;
    assert Or(5, 9) == 13;
    assert Or(10, 18) == 26;
    assert Or(0, 2) == 2;
    assert Or(1, 4) == 5;
    assert Or(2, 8) == 10;
    assert Or(5, 16) == 21;
    assert Or(10, 32) == 42;
    assert Or(1, 0) == 1;
    assert Or(2, 1) == 3;
    assert Or(5, 2) == 7;
    assert Or(10, 4) == 14;
    assert Or(21, 9) == 29;
    assert Or(42, 18) == 58;
    assert Or(5, 0) == 5;
    assert Or(10, 1) == 11;
    assert Or(11, 18) == 27;
    assert Or(10, 33) == 43;
    assert Or(43, 18) == 59;
  }

  lemma Addresses26(loc: Word, m: BitsMask)
    requires Clear(loc, m.mask) == 16 && m.bits == 0
    requires Combinations(FloatingBits(m.mask, 0)) == [0, 8, 2, 10, 1, 9, 3, 11]
    ensures Addresses(loc, m) == [16, 24, 18, 26, 17, 25, 19, 27]
  {
    OrValues26();
    Pointwise8(16, 0, 0, 8, 2, 10, 1, 9, 3, 11, 16, 24, 18, 26, 17, 25, 19, 27);
    AddressesFrom(loc, m, [0, 8, 2, 10, 1, 9, 3, 11], 16, [16, 24, 18, 26, 17, 25, 19, 27]);
  }

  /** Eight addresses from eight combinations, entry by entry. */
  lemma Pointwise8(cleared: Word, bits: Word,
                   c0: Word, c1: Word, c2: Word, c3: Word, c4: Word, c5: Word, c6: Word, c7: Word,
                   a0: Word, a1: Word, a2: Word, a3: Word, a4: Word, a5: Word, a6: Word, a7: Word)
    requires a0 == Or(Or(cleared, c0), bits) && a1 == Or(Or(cleared, c1), bits)
    requires a2 == Or(Or(cleared, c2), bits) && a3 == Or(Or(cleared, c3), bits)
    requires a4 == Or(Or(cleared, c4), bits) && a5 == Or(Or(cleared, c5), bits)
    requires a6 == Or(Or(cleared, c6), bits) && a7 == Or(Or(cleared, c7), bits)
    ensures var cs, addrs := [c0, c1, c2, c3, c4, c5, c6, c7], [a0, a1, a2, a3, a4, a5, a6, a7];
      forall i :: 0 <= i < 8 ==> addrs[i] == Or(Or(cleared, cs[i]), bits)
  {
  }

  lemma OrValues26()
    ensures Or(Or(16, 0), 0) == 16 && Or(Or(16, 8), 0) == 24 && Or(Or(16, 2), 0) == 18
    ensures Or(Or(16, 10), 0) == 26 && Or(Or(16, 1), 0) == 17 && Or(Or(16, 9), 0) == 25
    ensures Or(Or(16, 3), 0) == 19 && Or(Or(16, 11), 0) == 27
  {
    assert Or(16, 0) == 16;
    assert Or(1, 0) == 1;
    assert Or(2, 1) == 3;
    assert Or(4, 2) == 6;
    assert Or(8, 4) == 12;
    assert Or(16, 8) == 24;
    assert Or(4, 0) == 4;
    assert Or(8, 1) == 9;
    assert Or(16, 2) == 18;
    assert Or(8, 5) == 13;
    assert Or(16, 10) == 26;
    assert Or(8, 0) == 8;
    assert Or(16, 1) == 17;
    assert Or(16, 9) == 25;
    assert Or(16, 3) == 19;
    assert Or(16, 11) == 27;
  }

  const Program2 := [SetMask(BitsMask(33, 18)), Assign(42, 100), SetMask(BitsMask(11, 0)), Assign(26, 1)]

  const Memory2 := map[58 := 100, 59 := 100, 16 := 1, 17 := 1, 18 := 1, 19 := 1, 24 := 1, 25 := 1, 26 := 1, 27 := 1]

  /** `run2` writes 100 to four addresses, then 1 to eight, two of them shared: the memory sums to 208. */
  lemma ExampleRun2()
    ensures Run2All(NewProgram(Program2), Program2).mem == Memory2
    ensures MemSum(Run2All(NewProgram(Program2), Program2).mem) == 208
  {
    Run2On(Program2);
    ExampleSum2();
  }

  lemma Run2Prefix(start: Program, p: seq<Instruction>, k: nat)
    requires k < |p|
    ensures Run2All(start, p[..k + 1]) == Run2Step(Run2All(start, p[..k]), p[k])
    ensures Run2All(start, p[..0]) == start
  {
    assert p[..k + 1][..k] == p[..k];
  }

  lemma Run2On(p: seq<Instruction>)
    requires p == Program2
    ensures Run2All(NewProgram(p), p).mem == Memory2
  {
    var start := NewProgram(p);
    Run2TwoOn(p);
    Run2Prefix(start, p, 2);
    var s3 := Run2All(start, p[..3]);
    assert s3 == Program(p, BitsMask(11, 0), map[26 := 100, 58 := 100, 27 := 100, 59 := 100]);
    Run2Prefix(start, p, 3);
    LastStep(s3, p[3]);
    assert p[..4] == p;
  }

  /** After the first mask and the first assignment. */
  lemma Run2TwoOn(p: seq<Instruction>)
    requires p == Program2
    ensures Run2All(NewProgram(p), p[..2]) == Program(p, BitsMask(33, 18), map[26 := 100, 58 := 100, 27 := 100, 59 := 100])
  {
    var start := NewProgram(p);
    ExampleAddresses();
    Run2Prefix(start, p, 0);
    Run2Prefix(start, p, 1);
    FirstWrite(map[]);
  }

  lemma LastStep(s3: Program, instruction: Instruction)
    requires s3.currentMask == BitsMask(11, 0) && s3.mem == map[26 := 100, 58 := 100, 27 := 100, 59 := 100]
    requires instruction == Assign(26, 1)
    ensures Run2Step(s3, instruction).mem == Memory2
  {
    ExampleAddresses();
    SecondWrite(s3.mem, Addresses(instruction.loc, s3.currentMask), instruction.value);
  }

  lemma FirstWrite(mem: map<Word, Word>)
    requires mem == map[]
    ensures WriteAll(mem, [26, 58, 27, 59], 100) == map[26 := 100, 58 := 100, 27 := 100, 59 := 100]
  {
  }

  lemma SecondWrite(mem: map<Word, Word>, addrs: seq<Word>, v: Word)
    requires mem == map[26 := 100, 58 := 100, 27 := 100, 59 := 100]
    requires addrs == [16, 24, 18, 26, 17, 25, 19, 27] && v == 1
    ensures WriteAll(mem, addrs, v) == Memory2
  {
    var w := WriteAll(mem, addrs, v);
    SecondKeys(mem, addrs);
    SecondValues(mem, addrs, w);
    MapsEqual(w, Memory2);
  }

  lemma SecondKeys(mem: map<Word, Word>, addrs: seq<Word>)
    requires mem == map[26 := 100, 58 := 100, 27 := 100, 59 := 100]
    requires addrs == [16, 24, 18, 26, 17, 25, 19, 27]
    ensures forall a :: a in mem || a in addrs <==> a in Memory2
  {
    forall a ensures a in addrs <==> a in {16, 24, 18, 26, 17, 25, 19, 27} {
    }
  }

  lemma SecondValues(mem: map<Word, Word>, addrs: seq<Word>, w: map<Word, Word>)
    requires mem == map[26 := 100, 58 := 100, 27 := 100, 59 := 100]
    requires addrs == [16, 24, 18, 26, 17, 25, 19, 27]
    requires forall a :: a in addrs ==> a in w && w[a] == 1
    requires forall a :: a in mem && a !in addrs ==> a in w && w[a] == mem[a]
    ensures forall a :: a in Memory2 ==> a in w && w[a] == Memory2[a]
  {
    assert addrs[0] == 16 && addrs[1] == 24 && addrs[2] == 18 && addrs[3] == 26;
    assert addrs[4] == 17 && addrs[5] == 25 && addrs[6] == 19 && addrs[7] == 27;
    assert 58 !in addrs && 59 !in addrs;
  }

  lemma MapsEqual(a: map<Word, Word>, b: map<Word, Word>)
    requires forall k :: k in a <==> k in b
    requires forall k :: k in b ==> a[k] == b[k]
    ensures a == b
  {
  }

  lemma ExampleSum2()
    ensures MemSum(Memory2) == 208
  {
    var m0: map<Word, Word> := map[];
    MemSumAdd(m0, 58, 100);
    MemSumAdd(m0[58 := 100], 59, 100);
    var m2 := m0[58 := 100][59 := 100];
    MemSumAdd(m2, 16, 1);
    MemSumAdd(m2[16 := 1], 17, 1);
    MemSumAdd(m2[16 := 1][17 := 1], 18, 1);
    MemSumAdd(m2[16 := 1][17 := 1][18 := 1], 19, 1);
    var m6 := m2[16 := 1][17 := 1][18 := 1][19 := 1];
    MemSumAdd(m6, 24, 1);
    MemSumAdd(m6[24 := 1], 25, 1);
    MemSumAdd(m6[24 := 1][25 := 1], 26, 1);
    MemSumAdd(m6[24 := 1][25 := 1][26 := 1], 27, 1);
    assert m6[24 := 1][25 := 1][26 := 1][27 := 1] == Memory2;
  }
}
