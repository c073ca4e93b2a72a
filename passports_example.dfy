/**
 * The passports of the day 4 examples: two of the first four pass `isValid`;
 * the four "valid" passports of part 2 pass `isValid2` and the four
 * "invalid" ones do not.
 */
module PassportsExample {
  import opened Seqs
  import opened Decimal
  import opened Passports

  const Example: seq<Passport> := [
    Passport([Field(Ecl, "gry"), Field(Pid, "860033327"), Field(Eyr, "2020"), Field(Hcl, "#fffffd"),
              Field(Byr, "1937"), Field(Iyr, "2017"), Field(Cid, "147"), Field(Hgt, "183cm")]),
    Passport([Field(Iyr, "2013"), Field(Ecl, "amb"), Field(Cid, "350"), Field(Eyr, "2023"),
              Field(Pid, "028048884"), Field(Hcl, "#cfa07d"), Field(Byr, "1929")]),
    Passport([Field(Hcl, "#ae17e1"), Field(Iyr, "2013"), Field(Eyr, "2024"), Field(Ecl, "brn"),
              Field(Pid, "760753108"), Field(Byr, "1931"), Field(Hgt, "179cm")]),
    Passport([Field(Hcl, "#cfa07d"), Field(Eyr, "2025"), Field(Pid, "166559648"), Field(Iyr, "2011"),
              Field(Ecl, "brn"), Field(Hgt, "59in")])
  ]

  const Invalid2: seq<Passport> := [
    Passport([Field(Eyr, "1972"), Field(Cid, "100"), Field(Hcl, "#18171d"), Field(Ecl, "amb"),
              Field(Hgt, "170"), Field(Pid, "186cm"), Field(Iyr, "2018"), Field(Byr, "1926")]),
    Passport([Field(Iyr, "2019"), Field(Hcl, "#602927"), Field(Eyr, "1967"), Field(Hgt, "170cm"),
              Field(Ecl, "grn"), Field(Pid, "012533040"), Field(Byr, "1946")]),
    Passport([Field(Hcl, "dab227"), Field(Iyr, "2012"), Field(Ecl, "brn"), Field(Hgt, "182cm"),
              Field(Pid, "021572410"), Field(Eyr, "2020"), Field(Byr, "1992"), Field(Cid, "277")]),
    Passport([Field(Hgt, "59cm"), Field(Ecl, "zzz"), Field(Eyr, "2038"), Field(Hcl, "74454a"),
              Field(Iyr, "2023"), Field(Pid, "3556412378"), Field(Byr, "2007")])
  ]

  const Valid2: seq<Passport> := [Valid2A, Valid2B, Valid2C, Valid2D]

  const Valid2A := Passport([Field(Pid, "087499704"), Field(Hgt, "74in"), Field(Ecl, "grn"), Field(Iyr, "2012"),
    Field(Eyr, "2030"), Field(Byr, "1980"), Field(Hcl, "#623a2f")])

  const Valid2B := Passport([Field(Eyr, "2029"), Field(Ecl, "blu"), Field(Cid, "129"), Field(Byr, "1989"),
    Field(Iyr, "2014"), Field(Pid, "896056539"), Field(Hcl, "#a97842"), Field(Hgt, "165cm")])

  const Valid2C := Passport([Field(Hcl, "#888785"), Field(Hgt, "164cm"), Field(Byr, "2001"), Field(Iyr, "2015"),
    Field(Cid, "88"), Field(Pid, "545766238"), Field(Ecl, "hzl"), Field(Eyr, "2022")])

  const Valid2D := Passport([Field(Iyr, "2010"), Field(Hgt, "158cm"), Field(Hcl, "#b6652a"), Field(Ecl, "blu"),
    Field(Byr, "1944"), Field(Eyr, "2021"), Field(Pid, "093154719")])

  /** The number four digits spell. */
  lemma ParseFour(s: string)
    requires |s| == 4 && AllDigits(s)
    ensures ParseDigits(s) ==
      1000 * DigitValue(s[0]) + 100 * DigitValue(s[1]) + 10 * DigitValue(s[2]) + DigitValue(s[3])
  {
    assert s[..3][..2] == s[..2] && s[..3][2] == s[2];
    ParseThree(s[..3]);
  }

  /** The number three digits spell. */
  lemma ParseThree(s: string)
    requires |s| == 3 && AllDigits(s)
    ensures ParseDigits(s) == 100 * DigitValue(s[0]) + 10 * DigitValue(s[1]) + DigitValue(s[2])
  {
    assert s[..2][..1] == s[..1] && s[..2][1] == s[1];
    ParseTwo(s[..2]);
  }

  /** The number two digits spell. */
  lemma ParseTwo(s: string)
    requires |s| == 2 && AllDigits(s)
    ensures ParseDigits(s) == 10 * DigitValue(s[0]) + DigitValue(s[1])
  {
    assert s[..1][..0] == [] && s[..1][0] == s[0];
    assert ParseDigits(s[..1]) == DigitValue(s[0]);
  }

  /** A height in centimetres, given by its three digits. */
  lemma Centimetres(s: string, n: int)
    requires |s| == 5 && AllDigits(s[..3]) && s[3..] == "cm"
    requires n == 100 * DigitValue(s[0]) + 10 * DigitValue(s[1]) + DigitValue(s[2])
    ensures Measure(s, "cm", 150, 193) <==> 150 <= n <= 193
  {
    ParseThree(s[..3]);
  }

  /** Four passports filtered: the kept ones are counted one by one. */
  lemma FilterFour<A>(s: seq<A>, p: A -> bool)
    requires |s| == 4
    ensures |Filter(s, p)| ==
      (if p(s[0]) then 1 else 0) + (if p(s[1]) then 1 else 0) + (if p(s[2]) then 1 else 0) + (if p(s[3]) then 1 else 0)
  {
    var s1, s2, s3 := s[1..], s[2..], s[3..];
    assert s1[1..] == s2 && s2[1..] == s3 && s3[1..] == [];
    assert s1[0] == s[1] && s2[0] == s[2] && s3[0] == s[3];
    assert |Filter(s3, p)| == (if p(s[3]) then 1 else 0);
    assert |Filter(s2, p)| == (if p(s[2]) then 1 else 0) + |Filter(s3, p)|;
    assert |Filter(s1, p)| == (if p(s[1]) then 1 else 0) + |Filter(s2, p)|;
  }

  /** All eight fields: valid. */
  lemma Example0()
    ensures IsValid(Example[0])
  {
    var p := Example[0];
    IsValidSpec(p);
    assert p.fields[0].name == Ecl && p.fields[1].name == Pid && p.fields[2].name == Eyr && p.fields[3].name == Hcl;
    assert p.fields[4].name == Byr && p.fields[5].name == Iyr && p.fields[7].name == Hgt;
  }

  /** Height is missing: invalid. */
  lemma Example1()
    ensures !IsValid(Example[1])
  {
    var p := Example[1];
    IsValidSpec(p);
    assert forall i :: 0 <= i < |p.fields| ==> p.fields[i].name != Hgt;
  }

  /** Only the optional cid is missing: valid. */
  lemma Example2()
    ensures IsValid(Example[2])
  {
    var p := Example[2];
    IsValidSpec(p);
    assert p.fields[0].name == Hcl && p.fields[1].name == Iyr && p.fields[2].name == Eyr && p.fields[3].name == Ecl;
    assert p.fields[4].name == Pid && p.fields[5].name == Byr && p.fields[6].name == Hgt;
  }

  /** Birth year is missing: invalid. */
  lemma Example3()
    ensures !IsValid(Example[3])
  {
    var p := Example[3];
    IsValidSpec(p);
    assert forall i :: 0 <= i < |p.fields| ==> p.fields[i].name != Byr;
  }

  /** `passports.filter(\.isValid).count` on the example is 2. */
  lemma ExampleValid()
    ensures |Filter(Example, IsValid)| == 2
  {
    Example0();
    Example1();
    Example2();
    Example3();
    FilterFour(Example, IsValid);
  }
  /** A height in inches, given by its two digits. */
  lemma Inches(s: string, n: int)
    requires |s| == 4 && AllDigits(s[..2]) && s[2..] == "in"
    requires n == 10 * DigitValue(s[0]) + DigitValue(s[1])
    ensures Measure(s, "in", 59, 76) <==> 59 <= n <= 76
  {
    ParseTwo(s[..2]);
  }

  /** A year within bounds, given by its four digits. */
  lemma YearValid(s: string, atLeast: int, atMost: int)
    requires |s| == 4 && AllDigits(s)
    requires atLeast <= 1000 * DigitValue(s[0]) + 100 * DigitValue(s[1]) + 10 * DigitValue(s[2]) + DigitValue(s[3]) <= atMost
    ensures Year(s, atLeast, atMost)
  {
    ParseFour(s);
  }

  /** A year out of bounds, given by its four digits. */
  lemma YearInvalid(s: string, atLeast: int, atMost: int)
    requires |s| == 4 && AllDigits(s)
    requires !(atLeast <= 1000 * DigitValue(s[0]) + 100 * DigitValue(s[1]) + 10 * DigitValue(s[2]) + DigitValue(s[3]) <= atMost)
    ensures !Year(s, atLeast, atMost)
  {
    ParseFour(s);
  }

  /** A passport holding a valid value for each of the seven required fields, at the given positions. */
  lemma AllPresent(p: Passport, byr: nat, iyr: nat, eyr: nat, hgt: nat, hcl: nat, ecl: nat, pid: nat)
    requires byr < |p.fields| && p.fields[byr].name == Byr && ValueValid2(p.fields[byr].value, Byr)
    requires iyr < |p.fields| && p.fields[iyr].name == Iyr && ValueValid2(p.fields[iyr].value, Iyr)
    requires eyr < |p.fields| && p.fields[eyr].name == Eyr && ValueValid2(p.fields[eyr].value, Eyr)
    requires hgt < |p.fields| && p.fields[hgt].name == Hgt && ValueValid2(p.fields[hgt].value, Hgt)
    requires hcl < |p.fields| && p.fields[hcl].name == Hcl && ValueValid2(p.fields[hcl].value, Hcl)
    requires ecl < |p.fields| && p.fields[ecl].name == Ecl && ValueValid2(p.fields[ecl].value, Ecl)
    requires pid < |p.fields| && p.fields[pid].name == Pid && ValueValid2(p.fields[pid].value, Pid)
    ensures IsValid2(p)
  {
    IsValid2Spec(p);
  }

  /** A passport whose only field named `n` holds a value the rule rejects. */
  lemma OneBad(p: Passport, n: FieldName, k: nat)
    requires n in Required && k < |p.fields| && p.fields[k].name == n && !ValueValid2(p.fields[k].value, n)
    requires forall i :: 0 <= i < |p.fields| && i != k ==> p.fields[i].name != n
    ensures !IsValid2(p)
  {
    IsValid2Spec(p);
  }

  /** Every required field holds a value its rule accepts. */
  lemma Values2A(f: seq<Field>)
    requires f == Valid2A.fields
    ensures ValueValid2(f[1].value, Hgt) && ValueValid2(f[3].value, Iyr) && ValueValid2(f[4].value, Eyr) && ValueValid2(f[5].value, Byr)
    ensures ValueValid2(f[6].value, Hcl) && ValueValid2(f[2].value, Ecl) && ValueValid2(f[0].value, Pid)
  {
    Inches(f[1].value, 74);
    YearValid(f[3].value, 2010, 2020);
    YearValid(f[4].value, 2020, 2030);
    YearValid(f[5].value, 1920, 2002);
  }

  lemma Valid2At0()
    ensures IsValid2(Valid2A)
  {
    Values2A(Valid2A.fields);
    AllPresent(Valid2A, 5, 3, 4, 1, 6, 2, 0);
  }

  lemma Values2B(f: seq<Field>)
    requires f == Valid2B.fields
    ensures ValueValid2(f[3].value, Byr) && ValueValid2(f[4].value, Iyr) && ValueValid2(f[0].value, Eyr) && ValueValid2(f[7].value, Hgt)
    ensures ValueValid2(f[6].value, Hcl) && ValueValid2(f[1].value, Ecl) && ValueValid2(f[5].value, Pid)
  {
    YearValid(f[0].value, 2020, 2030);
    YearValid(f[3].value, 1920, 2002);
    YearValid(f[4].value, 2010, 2020);
    Centimetres(f[7].value, 165);
  }

  lemma Valid2At1()
    ensures IsValid2(Valid2B)
  {
    Values2B(Valid2B.fields);
    AllPresent(Valid2B, 3, 4, 0, 7, 6, 1, 5);
  }

  lemma Values2C(f: seq<Field>)
    requires f == Valid2C.fields
    ensures ValueValid2(f[2].value, Byr) && ValueValid2(f[3].value, Iyr) && ValueValid2(f[7].value, Eyr) && ValueValid2(f[1].value, Hgt)
    ensures ValueValid2(f[0].value, Hcl) && ValueValid2(f[6].value, Ecl) && ValueValid2(f[5].value, Pid)
  {
    Centimetres(f[1].value, 164);
    YearValid(f[2].value, 1920, 2002);
    YearValid(f[3].value, 2010, 2020);
    YearValid(f[7].value, 2020, 2030);
  }

  lemma Valid2At2()
    ensures IsValid2(Valid2C)
  {
    Values2C(Valid2C.fields);
    AllPresent(Valid2C, 2, 3, 7, 1, 0, 6, 5);
  }

  lemma Values2D(f: seq<Field>)
    requires f == Valid2D.fields
    ensures ValueValid2(f[4].value, Byr) && ValueValid2(f[0].value, Iyr) && ValueValid2(f[5].value, Eyr) && ValueValid2(f[1].value, Hgt)
    ensures ValueValid2(f[2].value, Hcl) && ValueValid2(f[3].value, Ecl) && ValueValid2(f[6].value, Pid)
  {
    YearValid(f[0].value, 2010, 2020);
    Centimetres(f[1].value, 158);
    YearValid(f[4].value, 1920, 2002);
    YearValid(f[5].value, 2020, 2030);
  }

  lemma Valid2At3()
    ensures IsValid2(Valid2D)
  {
    Values2D(Valid2D.fields);
    AllPresent(Valid2D, 4, 0, 5, 1, 2, 3, 6);
  }

  /** All four passports of the valid list pass `isValid2`. */
  lemma Valid2AllValid()
    ensures |Filter(Valid2, IsValid2)| == 4
  {
    Valid2At0();
    Valid2At1();
    Valid2At2();
    Valid2At3();
    FilterFour([Valid2A, Valid2B, Valid2C, Valid2D], IsValid2);
  }

  /** The only expiration year, 1972, is too early. */
  lemma Invalid2At0()
    ensures !IsValid2(Invalid2[0])
  {
    YearInvalid(Invalid2[0].fields[0].value, 2020, 2030);
    OneBad(Invalid2[0], Eyr, 0);
  }

  /** The only expiration year, 1967, is too early. */
  lemma Invalid2At1()
    ensures !IsValid2(Invalid2[1])
  {
    YearInvalid(Invalid2[1].fields[2].value, 2020, 2030);
    OneBad(Invalid2[1], Eyr, 2);
  }

  /** The hair colour lacks its '#'. */
  lemma Invalid2At2()
    ensures !IsValid2(Invalid2[2])
  {
    OneBad(Invalid2[2], Hcl, 0);
  }

  /** The eye colour "zzz" is not one of the seven. */
  lemma Invalid2At3()
    ensures !IsValid2(Invalid2[3])
  {
    assert Invalid2[3].fields[1].value[0] == 'z';
    OneBad(Invalid2[3], Ecl, 1);
  }

  /** None of the four passports of the invalid list passes `isValid2`. */
  lemma Invalid2NoneValid()
    ensures |Filter(Invalid2, IsValid2)| == 0
  {
    Invalid2At0();
    Invalid2At1();
    Invalid2At2();
    Invalid2At3();
    FilterFour(Invalid2, IsValid2);
  }
}
