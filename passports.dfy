/**
 * Day 4: passports as lists of `name:value` fields. A passport is valid when
 * its distinct field names are all eight, or seven with only `cid` missing;
 * the second policy counts only the fields whose values pass their rule.
 */
module Passports {
  import opened Seqs
  import opened Decimal

  datatype FieldName = Byr | Iyr | Eyr | Hgt | Hcl | Ecl | Pid | Cid

  datatype Field = Field(name: FieldName, value: string)

  datatype Passport = Passport(fields: seq<Field>)

  /** The seven fields a passport cannot do without; `cid` is optional. */
  const Required: set<FieldName> := {Byr, Iyr, Eyr, Hgt, Hcl, Ecl, Pid}

  /** `Set(fields.map(\.name))`. */
  function Names(fields: seq<Field>): (s: set<FieldName>)
    ensures forall n :: n in s <==> exists i :: 0 <= i < |fields| && fields[i].name == n
  {
    set i | 0 <= i < |fields| :: fields[i].name
  }

  /** The test both policies apply to the set of field names. */
  predicate CountTest(names: set<FieldName>)
  {
    |names| == 8 || (|names| == 7 && Cid !in names)
  }

  /** `isValid`. */
  predicate IsValid(p: Passport)
  {
    CountTest(Names(p.fields))
  }

  /** `isValid2`: the same test on the fields whose values pass `isValueValid2`. */
  predicate IsValid2(p: Passport)
  {
    CountTest(Names(Filter(p.fields, FieldValid)))
  }

  predicate FieldValid(f: Field)
  {
    ValueValid2(f.value, f.name)
  }

  lemma {:induction false} SubsetCard<A>(a: set<A>, b: set<A>)
    requires a <= b
    ensures |a| <= |b|
    ensures |a| == |b| ==> a == b
    decreases b
  {
    if a != b {
      var x :| x in b && x !in a;
      SubsetCard(a, b - {x});
    }
  }

  lemma AllNames(names: set<FieldName>)
    ensures names <= Required + {Cid} && |Required| == 7 && |Required + {Cid}| == 8
  {
    forall n | n in names ensures n in Required + {Cid} {
      match n
      case Byr => case Iyr => case Eyr => case Hgt => case Hcl => case Ecl => case Pid => case Cid =>
    }
  }

  /** The count test passes exactly when all seven required names are present, whether or not `cid` is. */
  lemma CountTestSpec(names: set<FieldName>)
    ensures CountTest(names) <==> Required <= names
  {
    AllNames(names);
    var all := Required + {Cid};
    if Required <= names {
      if Cid in names {
        assert all <= names;
        SubsetCard(names, all);
        SubsetCard(all, names);
      } else {
        assert names <= Required;
        SubsetCard(names, Required);
        SubsetCard(Required, names);
      }
    }
    if CountTest(names) {
      if |names| == 8 {
        SubsetCard(names, all);
        assert names == all;
      } else {
        assert names <= Required;
        SubsetCard(names, Required);
      }
    }
  }

  /** A passport is valid exactly when each required field occurs in it. */
  lemma IsValidSpec(p: Passport)
    ensures IsValid(p) <==> forall n :: n in Required ==>
      exists i :: 0 <= i < |p.fields| && p.fields[i].name == n
  {
    CountTestSpec(Names(p.fields));
  }

  /** Under the second policy, each required field must occur with a value its rule accepts; `cid` never matters. */
  lemma IsValid2Spec(p: Passport)
    ensures IsValid2(p) <==> forall n :: n in Required ==>
      exists i :: 0 <= i < |p.fields| && p.fields[i].name == n && ValueValid2(p.fields[i].value, n)
  {
    var valid := Filter(p.fields, FieldValid);
    CountTestSpec(Names(valid));
    forall n | n in Required
      ensures n in Names(valid) <==>
        exists i :: 0 <= i < |p.fields| && p.fields[i].name == n && ValueValid2(p.fields[i].value, n)
    {
      ValidName(p.fields, n);
    }
  }

  lemma ValidName(fields: seq<Field>, n: FieldName)
    ensures n in Names(Filter(fields, FieldValid)) <==>
      exists i :: 0 <= i < |fields| && fields[i].name == n && ValueValid2(fields[i].value, n)
  {
    var valid := Filter(fields, FieldValid);
    if j :| 0 <= j < |valid| && valid[j].name == n {
      InFilter(fields, FieldValid, valid[j]);
      var i :| 0 <= i < |fields| && fields[i] == valid[j];
    }
    if i :| 0 <= i < |fields| && fields[i].name == n && ValueValid2(fields[i].value, n) {
      InFilter(fields, FieldValid, fields[i]);
      var j :| 0 <= j < |valid| && valid[j] == fields[i];
    }
  }

  /** The second policy is stricter than the first. */
  lemma Valid2IsValid(p: Passport)
    ensures IsValid2(p) ==> IsValid(p)
  {
    IsValidSpec(p);
    IsValid2Spec(p);
  }

  /** Four digits spelling a year within `[atLeast, atMost]`. */
  predicate Year(value: string, atLeast: int, atMost: int)
  {
    |value| == 4 && AllDigits(value) && atLeast <= ParseDigits(value) <= atMost
  }

  /** One or more digits followed by `unit`, the number within `[atLeast, atMost]`. */
  predicate Measure(value: string, unit: string, atLeast: int, atMost: int)
  {
    |value| > |unit| && value[|value| - |unit|..] == unit &&
    AllDigits(value[..|value| - |unit|]) &&
    atLeast <= ParseDigits(value[..|value| - |unit|]) <= atMost
  }

  /** `height`: 150 to 193 centimetres or 59 to 76 inches. */
  predicate Height(value: string)
  {
    Measure(value, "cm", 150, 193) || Measure(value, "in", 59, 76)
  }

  predicate IsHexDigit(c: char)
  {
    '0' <= c <= '9' || 'a' <= c <= 'f'
  }

  /** `hairColor`: '#' then six lower-case hexadecimal digits. */
  predicate HairColor(value: string)
  {
    |value| == 7 && value[0] == '#' && forall i :: 1 <= i < 7 ==> IsHexDigit(value[i])
  }

  /** `eyeColor`: one of seven three-letter colours. */
  predicate EyeColor(value: string)
  {
    value in {"amb", "blu", "brn", "gry", "grn", "hzl", "oth"}
  }

  predicate IsAlphanumeric(c: char)
  {
    IsDigit(c) || 'a' <= c <= 'z' || 'A' <= c <= 'Z'
  }

  /** `isValueValid2`: the rule each field's value must follow. */
  predicate ValueValid2(value: string, name: FieldName)
  {
    match name
    case Byr => Year(value, 1920, 2002)
    case Iyr => Year(value, 2010, 2020)
    case Eyr => Year(value, 2020, 2030)
    case Hgt => Height(value)
    case Hcl => HairColor(value)
    case Ecl => EyeColor(value)
    case Pid => |value| == 9 && AllDigits(value)
    case Cid => |value| == 1 && IsAlphanumeric(value[0])
  }
}
