/**
 * Boarding-pass decoding by binary bisection. A `PlaneRange` is a closed range
 * of rows or columns; each letter of a ticket halves one of the two ranges,
 * F/L keeping the lower half and B/R the upper half. A ticket of seven F/B
 * letters and three L/R letters narrows the 128 rows and 8 columns to one seat,
 * and its seat id is the ticket read as a ten-bit binary number.
 */
module Seats {
  import opened Wrappers

  /** `ClosedRange<Int>` built with `uncheckedBounds`: nothing forces `lowerBound <= upperBound`. */
  datatype PlaneRange = PlaneRange(lowerBound: int, upperBound: int)
  {
    function Count(): int
    {
      upperBound - lowerBound + 1
    }

    /** `only`: the bound of a one-element range. */
    function Only(): (o: Option<int>)
      ensures o.Some? <==> lowerBound == upperBound
      ensures o.Some? ==> o.value == lowerBound && o.value == upperBound
    {
      if Count() == 1 then Some(lowerBound) else None
    }

    /** `mid`: Swift's `quotientAndRemainder(dividingBy: 2)` of the bound sum, which truncates toward zero. */
    function Mid(): (qr: (int, int))
      ensures 2 * qr.0 + qr.1 == lowerBound + upperBound
      ensures lowerBound + upperBound >= 0 ==> 0 <= qr.1 <= 1
      ensures lowerBound + upperBound < 0 ==> -1 <= qr.1 <= 0
    {
      var n := lowerBound + upperBound;
      var q := if n >= 0 then n / 2 else -((-n) / 2);
      (q, n - 2 * q)
    }

    function Bisecting(d: BisectDirection): PlaneRange
    {
      match d
      case Higher => PlaneRange(Mid().0 + Mid().1, upperBound)
      case Lower => PlaneRange(lowerBound, Mid().0)
    }
  }

  datatype BisectDirection = Lower | Higher

  datatype Direction = F | B | L | R

  /** `chDirMap`: the ticket letters and the moves they stand for. */
  function DirectionOf(ch: char): (d: Option<Direction>)
    ensures d.Some? <==> ch in "FBLR"
  {
    match ch
    case 'F' => Some(F)
    case 'B' => Some(B)
    case 'L' => Some(L)
    case 'R' => Some(R)
    case _ => None
  }

  predicate IsTicket(ticket: string)
  {
    forall i :: 0 <= i < |ticket| ==> ticket[i] in "FBLR"
  }

  datatype Seat = Seat(row: int, seat: int)
  {
    function SeatId(): int
    {
      row * 8 + seat
    }
  }

  /** `move(_ dir:)` on the pair (row range, column range). */
  function Step(rc: (PlaneRange, PlaneRange), dir: Direction): (PlaneRange, PlaneRange)
  {
    match dir
    case F => (rc.0.Bisecting(Lower), rc.1)
    case B => (rc.0.Bisecting(Higher), rc.1)
    case L => (rc.0, rc.1.Bisecting(Lower))
    case R => (rc.0, rc.1.Bisecting(Higher))
  }

  /** The ranges after moving by every letter of `ticket`, in order (`reduce(into:)`). */
  function Walk(rc: (PlaneRange, PlaneRange), ticket: string): (PlaneRange, PlaneRange)
    requires IsTicket(ticket)
  {
    if ticket == [] then rc
    else Step(Walk(rc, ticket[..|ticket| - 1]), DirectionOf(ticket[|ticket| - 1]).value)
  }

  /** `seat`: defined only when both ranges are down to one element. */
  function SeatOf(rc: (PlaneRange, PlaneRange)): (s: Option<Seat>)
    ensures s.Some? <==> rc.0.Count() == 1 && rc.1.Count() == 1
    ensures s.Some? ==> s.value == Seat(rc.0.lowerBound, rc.1.lowerBound)
  {
    match (rc.0.Only(), rc.1.Only())
    case (Some(r), Some(c)) => Some(Seat(r, c))
    case _ => None
  }

  /** A fresh finder: rows `0 ... 127`, columns `0 ... 7`. */
  const Start: (PlaneRange, PlaneRange) := (PlaneRange(0, 127), PlaneRange(0, 7))

  /** The seat a ticket decodes to (`seat(for:)`). */
  function SeatFor(ticket: string): Option<Seat>
    requires IsTicket(ticket)
  {
    SeatOf(Walk(Start, ticket))
  }

  /** The finder's mutable state: the two ranges still possible. */
  class SeatFinder {
    var row: PlaneRange
    var col: PlaneRange

    constructor ()
      ensures (row, col) == Start
    {
      row := PlaneRange(0, 127);
      col := PlaneRange(0, 7);
    }

    /** `move(_ dir:)`: bisects the row range for F/B and the column range for L/R. */
    method Move(dir: Direction)
      modifies this
      ensures (row, col) == Step(old((row, col)), dir)
    {
      match dir
      case F => row := row.Bisecting(Lower);
      case B => row := row.Bisecting(Higher);
      case L => col := col.Bisecting(Lower);
      case R => col := col.Bisecting(Higher);
    }

    /** `move(_ ch:)`: any letter but F, B, L, R traps on the forced lookup. */
    method MoveLetter(ch: char)
      requires ch in "FBLR"
      modifies this
      ensures (row, col) == Step(old((row, col)), DirectionOf(ch).value)
    {
      Move(DirectionOf(ch).value);
    }

    function CurrentSeat(): (s: Option<Seat>)
      reads this
      ensures s == SeatOf((row, col))
    {
      match (row.Only(), col.Only())
      case (Some(r), Some(c)) => Some(Seat(r, c))
      case _ => None
    }
  }

  /** `seat(for:)`: a fresh finder moved by each letter of the ticket in turn. */
  method FindSeat(ticket: string) returns (s: Option<Seat>)
    requires IsTicket(ticket)
    ensures s == SeatFor(ticket)
  {
    var finder := new SeatFinder();
    for i := 0 to |ticket|
      invariant (finder.row, finder.col) == Walk(Start, ticket[..i])
    {
      assert ticket[..i + 1][..i] == ticket[..i];
      finder.MoveLetter(ticket[i]);
    }
    assert ticket[..|ticket|] == ticket;
    s := finder.CurrentSeat();
  }

  // Bisection laws

  /** Both halves lie inside the range; a singleton is left as it is. */
  lemma BisectingInside(r: PlaneRange, d: BisectDirection)
    requires r.lowerBound <= r.upperBound && r.lowerBound + r.upperBound >= 0
    ensures var h := r.Bisecting(d);
      r.lowerBound <= h.lowerBound <= h.upperBound <= r.upperBound
  {
  }

  /** Bisecting a singleton in either direction returns it unchanged, whatever its sign. */
  lemma BisectingSingleton(r: PlaneRange, d: BisectDirection)
    requires r.lowerBound == r.upperBound
    ensures r.Bisecting(d) == r
  {
    assert r.Mid() == (r.lowerBound, 0);
  }

  function Pow2(k: nat): (p: nat)
    ensures p >= 1
  {
    if k == 0 then 1 else 2 * Pow2(k - 1)
  }

  lemma Pow2Table()
    ensures Pow2(1) == 2 && Pow2(2) == 4 && Pow2(3) == 8 && Pow2(4) == 16
    ensures Pow2(5) == 32 && Pow2(6) == 64 && Pow2(7) == 128
  {
  }

  /** A range of `2^k` elements (k > 0) splits into two adjacent halves of `2^(k-1)` each. */
  lemma BisectingHalves(lo: int, k: nat)
    requires lo >= 0 && k > 0
    ensures PlaneRange(lo, lo + Pow2(k) - 1).Bisecting(Lower) == PlaneRange(lo, lo + Pow2(k - 1) - 1)
    ensures PlaneRange(lo, lo + Pow2(k) - 1).Bisecting(Higher) == PlaneRange(lo + Pow2(k - 1), lo + Pow2(k) - 1)
  {
    var r := PlaneRange(lo, lo + Pow2(k) - 1);
    assert r.lowerBound + r.upperBound == 2 * (lo + Pow2(k - 1) - 1) + 1;
    assert r.Mid() == (lo + Pow2(k - 1) - 1, 1);
  }

  // Decoding a ticket

  /** The letters that keep the upper half stand for a 1 bit. */
  function Bit(ch: char): nat
  {
    if ch == 'B' || ch == 'R' then 1 else 0
  }

  /** The letters read as a binary number, the last letter the least significant bit. */
  function Binary(s: string): nat
  {
    if s == [] then 0 else 2 * Binary(s[..|s| - 1]) + Bit(s[|s| - 1])
  }

  lemma {:induction false} BinaryBound(s: string)
    ensures Binary(s) < Pow2(|s|)
  {
    if s != [] {
      BinaryBound(s[..|s| - 1]);
    }
  }

  /** Reading `s + t` as one number shifts `s` left by `|t|` bits. */
  lemma {:induction false} BinaryConcat(s: string, t: string)
    ensures Binary(s + t) == Binary(s) * Pow2(|t|) + Binary(t)
  {
    if t == [] {
      assert s + t == s;
    } else {
      var t', last := t[..|t| - 1], t[|t| - 1];
      assert (s + t)[..|s + t| - 1] == s + t' && (s + t)[|s + t| - 1] == last;
      assert Binary(s + t) == 2 * Binary(s + t') + Bit(last);
      assert Binary(t) == 2 * Binary(t') + Bit(last);
      assert Pow2(|t|) == 2 * Pow2(|t'|);
      BinaryConcat(s, t');
      Distribute(Binary(s), Pow2(|t'|));
    }
  }

  lemma Distribute(a: int, p: int)
    ensures 2 * (a * p) == a * (2 * p)
  {
  }

  /** Three and four letters read as bits, spelled out. */
  lemma Binary3(a: char, b: char, c: char)
    ensures Binary([a, b, c]) == 4 * Bit(a) + 2 * Bit(b) + Bit(c)
  {
    assert [a][..0] == [];
    assert Binary([a]) == Bit(a);
    assert [a, b][..1] == [a];
    assert Binary([a, b]) == 2 * Bit(a) + Bit(b);
    assert [a, b, c][..2] == [a, b];
  }

  lemma Binary4(a: char, b: char, c: char, d: char)
    ensures Binary([a, b, c, d]) == 8 * Bit(a) + 4 * Bit(b) + 2 * Bit(c) + Bit(d)
  {
    assert [a, b, c, d][..3] == [a, b, c];
    Binary3(a, b, c);
  }

  lemma Binary7(a: char, b: char, c: char, d: char, e: char, f: char, g: char)
    ensures Binary([a, b, c, d, e, f, g]) ==
      64 * Bit(a) + 32 * Bit(b) + 16 * Bit(c) + 8 * Bit(d) + 4 * Bit(e) + 2 * Bit(f) + Bit(g)
  {
    assert [a, b, c, d, e, f, g] == [a, b, c] + [d, e, f, g];
    BinaryConcat([a, b, c], [d, e, f, g]);
    Binary3(a, b, c);
    Binary4(d, e, f, g);
    Pow2Table();
  }

  /** A pair of ranges: the row letters act on the first, the column letters on the second. */
  function RowStep(r: PlaneRange, ch: char): PlaneRange
  {
    if ch == 'F' then r.Bisecting(Lower) else if ch == 'B' then r.Bisecting(Higher) else r
  }

  function ColStep(c: PlaneRange, ch: char): PlaneRange
  {
    if ch == 'L' then c.Bisecting(Lower) else if ch == 'R' then c.Bisecting(Higher) else c
  }

  /** Row range after the letters of `s`, column letters skipped. */
  function RowWalk(r: PlaneRange, s: string): PlaneRange
  {
    if s == [] then r else RowStep(RowWalk(r, s[..|s| - 1]), s[|s| - 1])
  }

  /** Column range after the letters of `s`, row letters skipped. */
  function ColWalk(c: PlaneRange, s: string): PlaneRange
  {
    if s == [] then c else ColStep(ColWalk(c, s[..|s| - 1]), s[|s| - 1])
  }

  /** Row and column letters act on separate ranges. */
  lemma {:induction false} WalkSplits(rc: (PlaneRange, PlaneRange), s: string)
    requires IsTicket(s)
    ensures Walk(rc, s) == (RowWalk(rc.0, s), ColWalk(rc.1, s))
  {
    if s != [] {
      WalkSplits(rc, s[..|s| - 1]);
    }
  }

  /** One row letter on a block of `2^j` rows starting at `b`. */
  /** One row letter on block `v` of `2^j` rows is block `2v + bit` of `2^(j-1)`. */
  lemma RowBlock(lo: int, v: nat, j: nat, ch: char, before: PlaneRange)
    requires lo >= 0 && j > 0 && (ch == 'F' || ch == 'B')
    requires before == PlaneRange(lo + v * Pow2(j), lo + v * Pow2(j) + Pow2(j) - 1)
    ensures var b := lo + (2 * v + Bit(ch)) * Pow2(j - 1);
      RowStep(before, ch) == PlaneRange(b, b + Pow2(j - 1) - 1)
  {
    var b := lo + v * Pow2(j);
    StepRow(b, j, ch);
    BlockStep(lo, v, Bit(ch), 2 * v + Bit(ch), Pow2(j), Pow2(j - 1));
  }

  lemma StepRow(b: int, j: nat, ch: char)
    requires b >= 0 && j > 0 && (ch == 'F' || ch == 'B')
    ensures RowStep(PlaneRange(b, b + Pow2(j) - 1), ch) ==
      PlaneRange(b + Bit(ch) * Pow2(j - 1), b + Bit(ch) * Pow2(j - 1) + Pow2(j - 1) - 1)
  {
    BisectingHalves(b, j);
  }

  /** One col letter on block `v` of `2^j` cols is block `2v + bit` of `2^(j-1)`. */
  lemma ColBlock(lo: int, v: nat, j: nat, ch: char, before: PlaneRange)
    requires lo >= 0 && j > 0 && (ch == 'L' || ch == 'R')
    requires before == PlaneRange(lo + v * Pow2(j), lo + v * Pow2(j) + Pow2(j) - 1)
    ensures var b := lo + (2 * v + Bit(ch)) * Pow2(j - 1);
      ColStep(before, ch) == PlaneRange(b, b + Pow2(j - 1) - 1)
  {
    var b := lo + v * Pow2(j);
    StepCol(b, j, ch);
    BlockStep(lo, v, Bit(ch), 2 * v + Bit(ch), Pow2(j), Pow2(j - 1));
  }

  lemma StepCol(b: int, j: nat, ch: char)
    requires b >= 0 && j > 0 && (ch == 'L' || ch == 'R')
    ensures ColStep(PlaneRange(b, b + Pow2(j) - 1), ch) ==
      PlaneRange(b + Bit(ch) * Pow2(j - 1), b + Bit(ch) * Pow2(j - 1) + Pow2(j - 1) - 1)
  {
    BisectingHalves(b, j);
  }

  /** After a prefix `p` of F/B letters, `2^k` rows are down to the block of `2^(k-|p|)` that `p` names. */
  lemma {:induction false} RowWalkPrefix(lo: int, k: nat, p: string)
    requires lo >= 0 && |p| <= k && forall i :: 0 <= i < |p| ==> p[i] == 'F' || p[i] == 'B'
    ensures var b := lo + Binary(p) * Pow2(k - |p|);
      RowWalk(PlaneRange(lo, lo + Pow2(k) - 1), p) == PlaneRange(b, b + Pow2(k - |p|) - 1)
  {
    if p != [] {
      var p', ch := p[..|p| - 1], p[|p| - 1];
      assert forall i :: 0 <= i < |p'| ==> p'[i] == p[i];
      RowWalkPrefix(lo, k, p');
      var j := k - |p'|;
      var v := Binary(p');
      var before := RowWalk(PlaneRange(lo, lo + Pow2(k) - 1), p');
      assert RowWalk(PlaneRange(lo, lo + Pow2(k) - 1), p) == RowStep(before, ch);
      RowBlock(lo, v, j, ch, before);
      assert Binary(p) == 2 * v + Bit(ch) && k - |p| == j - 1;
    }
  }

  lemma {:induction false} ColWalkPrefix(lo: int, k: nat, p: string)
    requires lo >= 0 && |p| <= k && forall i :: 0 <= i < |p| ==> p[i] == 'L' || p[i] == 'R'
    ensures var b := lo + Binary(p) * Pow2(k - |p|);
      ColWalk(PlaneRange(lo, lo + Pow2(k) - 1), p) == PlaneRange(b, b + Pow2(k - |p|) - 1)
  {
    if p != [] {
      var p', ch := p[..|p| - 1], p[|p| - 1];
      assert forall i :: 0 <= i < |p'| ==> p'[i] == p[i];
      ColWalkPrefix(lo, k, p');
      var j := k - |p'|;
      var v := Binary(p');
      var before := ColWalk(PlaneRange(lo, lo + Pow2(k) - 1), p');
      assert ColWalk(PlaneRange(lo, lo + Pow2(k) - 1), p) == ColStep(before, ch);
      ColBlock(lo, v, j, ch, before);
      assert Binary(p) == 2 * v + Bit(ch) && k - |p| == j - 1;
    }
  }

  /** The arithmetic of one step: block `v` of size `2^j`, then half `bit` of it, is block `2v + bit` of size `2^(j-1)`. */
  lemma BlockStep(lo: int, v: int, bit: int, n: int, p: int, q: int)
    requires p == 2 * q && n == 2 * v + bit
    ensures lo + v * p + bit * q == lo + n * q
  {
  }

  /** Column letters leave the row range alone. */
  lemma {:induction false} RowWalkSkipsColumns(r: PlaneRange, rows: string, cols: string)
    requires forall i :: 0 <= i < |cols| ==> cols[i] == 'L' || cols[i] == 'R'
    ensures RowWalk(r, rows + cols) == RowWalk(r, rows)
  {
    if cols == [] {
      assert rows + cols == rows;
    } else {
      var cols' := cols[..|cols| - 1];
      assert (rows + cols)[..|rows + cols| - 1] == rows + cols' && (rows + cols)[|rows + cols| - 1] == cols[|cols| - 1];
      RowWalkSkipsColumns(r, rows, cols');
    }
  }

  /** Row letters leave the column range alone. */
  lemma {:induction false} ColWalkSkipsRows(c: PlaneRange, rows: string)
    requires forall i :: 0 <= i < |rows| ==> rows[i] == 'F' || rows[i] == 'B'
    ensures ColWalk(c, rows) == c
  {
    if rows != [] {
      ColWalkSkipsRows(c, rows[..|rows| - 1]);
    }
  }

  lemma {:induction false} ColWalkConcat(c: PlaneRange, s: string, t: string)
    ensures ColWalk(c, s + t) == ColWalk(ColWalk(c, s), t)
  {
    if t == [] {
      assert s + t == s;
    } else {
      var t' := t[..|t| - 1];
      assert (s + t)[..|s + t| - 1] == s + t' && (s + t)[|s + t| - 1] == t[|t| - 1];
      ColWalkConcat(c, s, t');
    }
  }

  /** A ticket of seven row letters then three column letters. */
  predicate IsBoardingPass(ticket: string)
  {
    |ticket| == 10 &&
    (forall i :: 0 <= i < 7 ==> ticket[i] == 'F' || ticket[i] == 'B') &&
    (forall i :: 7 <= i < 10 ==> ticket[i] == 'L' || ticket[i] == 'R')
  }

  /** As many row letters as the range has bits narrow it to the one row they spell. */
  lemma RowWalkFull(lo: int, p: string)
    requires lo >= 0 && forall i :: 0 <= i < |p| ==> p[i] == 'F' || p[i] == 'B'
    ensures RowWalk(PlaneRange(lo, lo + Pow2(|p|) - 1), p) == PlaneRange(lo + Binary(p), lo + Binary(p))
  {
    RowWalkPrefix(lo, |p|, p);
    assert Pow2(0) == 1;
  }

  lemma ColWalkFull(lo: int, p: string)
    requires lo >= 0 && forall i :: 0 <= i < |p| ==> p[i] == 'L' || p[i] == 'R'
    ensures ColWalk(PlaneRange(lo, lo + Pow2(|p|) - 1), p) == PlaneRange(lo + Binary(p), lo + Binary(p))
  {
    ColWalkPrefix(lo, |p|, p);
    assert Pow2(0) == 1;
  }

  /** The row range of a boarding pass ends as the single row its first seven letters name. */
  lemma PassRow(ticket: string)
    requires IsBoardingPass(ticket)
    ensures RowWalk(Start.0, ticket) == PlaneRange(Binary(ticket[..7]), Binary(ticket[..7]))
  {
    var rows, cols := ticket[..7], ticket[7..];
    assert ticket == rows + cols;
    RowWalkSkipsColumns(Start.0, rows, cols);
    Pow2Table();
    RowWalkFull(0, rows);
  }

  /** The column range of a boarding pass ends as the single column its last three letters name. */
  lemma PassColumn(ticket: string)
    requires IsBoardingPass(ticket)
    ensures ColWalk(Start.1, ticket) == PlaneRange(Binary(ticket[7..]), Binary(ticket[7..]))
  {
    var rows, cols := ticket[..7], ticket[7..];
    var c0 := Start.1;
    assert ticket == rows + cols;
    ColWalkSkipsRows(c0, rows);
    ColWalkConcat(c0, rows, cols);
    assert ColWalk(c0, ticket) == ColWalk(c0, cols);
    assert Pow2(3) == 8;
    ColWalkFull(0, cols);
  }

  /**
   * A boarding pass always decodes to a seat: the row is its first seven
   * letters in binary, the column its last three, and the seat id is the
   * whole ticket read as a ten-bit number.
   */
  lemma BoardingPassSeat(ticket: string)
    requires IsBoardingPass(ticket)
    ensures IsTicket(ticket)
    ensures SeatFor(ticket) == Some(Seat(Binary(ticket[..7]), Binary(ticket[7..])))
    ensures SeatFor(ticket).value.SeatId() == Binary(ticket)
    ensures 0 <= Binary(ticket[..7]) < 128 && 0 <= Binary(ticket[7..]) < 8
  {
    var rows, cols := ticket[..7], ticket[7..];
    assert IsTicket(ticket);
    WalkSplits(Start, ticket);
    PassRow(ticket);
    PassColumn(ticket);
    assert ticket == rows + cols;
    BinaryConcat(rows, cols);
    Pow2Table();
    BinaryBound(rows);
    BinaryBound(cols);
  }

  /** Seven row letters alone pin the row but not the column, so there is no seat yet. */
  lemma ShortTicketHasNoSeat()
    ensures IsTicket("FBFBBFF") && SeatFor("FBFBBFF") == None
  {
    var s := "FBFBBFF";
    assert IsTicket(s);
    WalkSplits(Start, s);
    Pow2Table();
    RowWalkPrefix(0, 7, s);
    ColWalkSkipsRows(Start.1, s);
  }

  // The four tickets of the puzzle text and their (row, column, seat id).

  lemma Example1()
    ensures IsTicket("FBFBBFFRLR") && SeatFor("FBFBBFFRLR") == Some(Seat(44, 5)) && Seat(44, 5).SeatId() == 357
  {
    var t := "FBFBBFFRLR";
    assert t[..7] == "FBFBBFF" && t[7..] == "RLR";
    Binary7('F', 'B', 'F', 'B', 'B', 'F', 'F');
    Binary3('R', 'L', 'R');
    BoardingPassSeat(t);
  }

  lemma Example2()
    ensures IsTicket("BFFFBBFRRR") && SeatFor("BFFFBBFRRR") == Some(Seat(70, 7)) && Seat(70, 7).SeatId() == 567
  {
    var t := "BFFFBBFRRR";
    assert t[..7] == "BFFFBBF" && t[7..] == "RRR";
    Binary7('B', 'F', 'F', 'F', 'B', 'B', 'F');
    Binary3('R', 'R', 'R');
    BoardingPassSeat(t);
  }

  lemma Example3()
    ensures IsTicket("FFFBBBFRRR") && SeatFor("FFFBBBFRRR") == Some(Seat(14, 7)) && Seat(14, 7).SeatId() == 119
  {
    var t := "FFFBBBFRRR";
    assert t[..7] == "FFFBBBF" && t[7..] == "RRR";
    Binary7('F', 'F', 'F', 'B', 'B', 'B', 'F');
    Binary3('R', 'R', 'R');
    BoardingPassSeat(t);
  }

  lemma Example4()
    ensures IsTicket("BBFFBBFRLL") && SeatFor("BBFFBBFRLL") == Some(Seat(102, 4)) && Seat(102, 4).SeatId() == 820
  {
    var t := "BBFFBBFRLL";
    assert t[..7] == "BBFFBBF" && t[7..] == "RLL";
    Binary7('B', 'B', 'F', 'F', 'B', 'B', 'F');
    Binary3('R', 'L', 'L');
    BoardingPassSeat(t);
  }
}
