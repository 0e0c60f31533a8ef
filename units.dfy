/**
 * The unit table: the nine binary magnitudes, their display names and the
 * upper-case input aliases that name them.
 */
module Units {
  import opened Wrappers
  import opened Text

  /** The byte-size suffixes, B = 1 and each next one 1024 times larger. */
  datatype Unit = B | KB | MB | GB | TB | PB | EB | ZB | YB

  /** The unit's position in the constant block (`iota`). */
  function Index(u: Unit): (k: nat)
    ensures k <= 8
  {
    match u
    case B => 0
    case KB => 1
    case MB => 2
    case GB => 3
    case TB => 4
    case PB => 5
    case EB => 6
    case ZB => 7
    case YB => 8
  }

  /** `1 << k`. */
  function Shift(k: nat): (r: nat)
    ensures r >= 1
  {
    if k == 0 then 1 else 2 * Shift(k - 1)
  }

  /**
   * The unit's value in bytes: B is 1 and every other unit is `1 << (10 * iota)`,
   * which is 1024 to the power of the unit's position.
   */
  function Mult(u: Unit): (m: nat)
    ensures m == Pow(1024, Index(u))
  {
    match u
    case B => 1
    case KB => assert Pow(1024, 1) == 1024; 1024
    case MB => assert Pow(1024, 2) == 1048576; 1048576
    case GB => assert Pow(1024, 3) == 1073741824; 1073741824
    case TB => assert Pow(1024, 4) == 1099511627776; 1099511627776
    case PB => assert Pow(1024, 5) == 1125899906842624; 1125899906842624
    case EB => assert Pow(1024, 6) == 1152921504606846976; 1152921504606846976
    case ZB => assert Pow(1024, 7) == 1180591620717411303424; 1180591620717411303424
    case YB => assert Pow(1024, 8) == 1208925819614629174706176; 1208925819614629174706176
  }

  /** Shifting by `i + j` is shifting by `i` and then by `j`. */
  lemma {:induction false} ShiftAdd(i: nat, j: nat)
    ensures Shift(i + j) == Shift(i) * Shift(j)
  {
    if j > 0 {
      ShiftAdd(i, j - 1);
      var p, q := Shift(i), Shift(j - 1);
      assert Shift(i + j) == 2 * (p * q);
      assert 2 * (p * q) == p * (2 * q);
    }
  }

  /** Ten shifts multiply by 1024, so `1 << (10 * k)` is 1024 to the power `k`. */
  lemma {:induction false} ShiftTens(k: nat)
    ensures Shift(10 * k) == Pow(1024, k)
  {
    if k > 0 {
      ShiftTens(k - 1);
      ShiftAdd(10 * (k - 1), 10);
      assert Shift(10) == 1024;
    }
  }

  /** Each multiplier is the constant block's `1 << (10 * iota)`; for B that is 1 << 0. */
  lemma MultIsShift(u: Unit)
    ensures Mult(u) == Shift(10 * Index(u))
  {
    ShiftTens(Index(u));
  }

  /** The unit one step larger. */
  function Next(u: Unit): (v: Unit)
    requires u != YB
    ensures Index(v) == Index(u) + 1 && Mult(v) == 1024 * Mult(u)
  {
    match u
    case B => KB
    case KB => MB
    case MB => GB
    case GB => TB
    case TB => PB
    case PB => EB
    case EB => ZB
    case ZB => YB
  }

  /** `shortUnitMap`. */
  function ShortName(u: Unit): string {
    match u
    case B => "B"
    case KB => "KB"
    case MB => "MB"
    case GB => "GB"
    case TB => "TB"
    case PB => "PB"
    case EB => "EB"
    case ZB => "ZB"
    case YB => "YB"
  }

  /** `longUnitMap`: the singular long name; the plural adds "s". */
  function LongName(u: Unit): string {
    match u
    case B => "byte"
    case KB => "kilobyte"
    case MB => "megabyte"
    case GB => "gigabyte"
    case TB => "terabyte"
    case PB => "petabyte"
    case EB => "exabyte"
    case ZB => "zettabyte"
    case YB => "yottabyte"
  }

  /** `unitMap`: upper-case input alias to unit. */
  const UnitMap: map<string, Unit> := map[
    "B" := B, "BYTE" := B, "BYTES" := B,
    "KB" := KB, "KILOBYTE" := KB, "KILOBYTES" := KB,
    "MB" := MB, "MEGABYTE" := MB, "MEGABYTES" := MB,
    "GB" := GB, "GIGABYTE" := GB, "GIGABYTES" := GB,
    "TB" := TB, "TERABYTE" := TB, "TERABYTES" := TB,
    "PB" := PB, "PETABYTE" := PB, "PETABYTES" := PB,
    "EB" := EB, "EXABYTE" := EB, "EXABYTES" := EB,
    "ZB" := ZB, "ZETTABYTE" := ZB, "ZETTABYTES" := ZB,
    "YB" := YB, "YOTTABYTE" := YB, "YOTTABYTES" := YB
  ]

  /** `unitMap[alias]` with its `ok` flag. */
  function Lookup(alias: string): Option<Unit> {
    if alias in UnitMap then Some(UnitMap[alias]) else None
  }

  /**
   * The long name in upper case, as the alias table spells it. It is spelt
   * out as literals so that proofs about the table compare literals instead
   * of unfolding `ToUpper`.
   */
  function UpperLongName(u: Unit): (n: string)
    ensures n == ToUpper(LongName(u))
  {
    match u
    case B => "BYTE"
    case KB => "KILOBYTE"
    case MB => "MEGABYTE"
    case GB => "GIGABYTE"
    case TB => "TERABYTE"
    case PB => "PETABYTE"
    case EB => "EXABYTE"
    case ZB => "ZETTABYTE"
    case YB => "YOTTABYTE"
  }

  /** The short names are upper case already. */
  lemma ShortNameUpper(u: Unit)
    ensures ToUpper(ShortName(u)) == ShortName(u)
  {
  }

  /** The names a unit is displayed by, upper-cased: short, long singular, long plural. */
  predicate IsAliasOf(alias: string, u: Unit) {
    || alias == ToUpper(ShortName(u))
    || alias == ToUpper(LongName(u))
    || alias == ToUpper(LongName(u) + "s")
  }

  /** Each of a unit's display names, upper-cased, looks up to that unit. */
  lemma NamesLookUp(u: Unit)
    ensures Lookup(ToUpper(ShortName(u))) == Some(u)
    ensures Lookup(ToUpper(LongName(u))) == Some(u)
    ensures Lookup(ToUpper(LongName(u) + "s")) == Some(u)
  {
    ShortNameUpper(u);
    UpperPlural(LongName(u));
    ShortKeys(u);
    LongKeys(u);
    PluralKeys(u);
  }

  lemma ShortKeys(u: Unit)
    ensures Lookup(ShortName(u)) == Some(u)
  {
  }

  lemma LongKeys(u: Unit)
    ensures Lookup(UpperLongName(u)) == Some(u)
  {
  }

  lemma PluralKeys(u: Unit)
    ensures Lookup(UpperLongName(u) + "S") == Some(u)
  {
    if Index(u) < 3 {
      PluralKeysLow(u);
    } else if Index(u) < 6 {
      PluralKeysMid(u);
    } else {
      PluralKeysHigh(u);
    }
  }

  lemma PluralKeysLow(u: Unit)
    requires Index(u) < 3
    ensures Lookup(UpperLongName(u) + "S") == Some(u)
  {
    match u
    case B => assert "BYTE" + "S" == "BYTES";
    case KB => assert "KILOBYTE" + "S" == "KILOBYTES";
    case MB => assert "MEGABYTE" + "S" == "MEGABYTES";
  }

  lemma PluralKeysMid(u: Unit)
    requires 3 <= Index(u) < 6
    ensures Lookup(UpperLongName(u) + "S") == Some(u)
  {
    match u
    case GB => assert "GIGABYTE" + "S" == "GIGABYTES";
    case TB => assert "TERABYTE" + "S" == "TERABYTES";
    case PB => assert "PETABYTE" + "S" == "PETABYTES";
  }

  lemma PluralKeysHigh(u: Unit)
    requires Index(u) >= 6
    ensures Lookup(UpperLongName(u) + "S") == Some(u)
  {
    match u
    case EB => assert "EXABYTE" + "S" == "EXABYTES";
    case ZB => assert "ZETTABYTE" + "S" == "ZETTABYTES";
    case YB => assert "YOTTABYTE" + "S" == "YOTTABYTES";
  }

  lemma UpperPlural(name: string)
    ensures ToUpper(name + "s") == ToUpper(name) + "S"
  {
  }

  /**
   * `alias` is `u`'s short name or its upper-case long name, singular or
   * plural, stated over the literal names so that the case split over the
   * table stays cheap for the solver.
   */
  predicate KeyNamesUnit(alias: string, u: Unit) {
    alias == ShortName(u) || alias == UpperLongName(u) || alias == UpperLongName(u) + "S"
  }

  /** Every key of the alias table is its unit's short name or upper-case long name, singular or plural. */
  lemma KeyIsName(alias: string)
    requires Lookup(alias).Some?
    ensures KeyNamesUnit(alias, Lookup(alias).value)
  {
    var u := Lookup(alias).value;
    if Index(u) < 3 {
      KeyIsNameLow(alias);
    } else if Index(u) < 6 {
      KeyIsNameMid(alias);
    } else {
      KeyIsNameHigh(alias);
    }
  }

  lemma KeyIsNameLow(alias: string)
    requires Lookup(alias).Some? && Index(Lookup(alias).value) < 3
    ensures KeyNamesUnit(alias, Lookup(alias).value)
  {
    var n := UpperLongName(Lookup(alias).value);
    match Lookup(alias).value
    case B => assert n + "S" == "BYTES";
    case KB => assert n + "S" == "KILOBYTES";
    case MB => assert n + "S" == "MEGABYTES";
  }

  lemma KeyIsNameMid(alias: string)
    requires Lookup(alias).Some? && 3 <= Index(Lookup(alias).value) < 6
    ensures KeyNamesUnit(alias, Lookup(alias).value)
  {
    var n := UpperLongName(Lookup(alias).value);
    match Lookup(alias).value
    case GB => assert n + "S" == "GIGABYTES";
    case TB => assert n + "S" == "TERABYTES";
    case PB => assert n + "S" == "PETABYTES";
  }

  lemma KeyIsNameHigh(alias: string)
    requires Lookup(alias).Some? && Index(Lookup(alias).value) >= 6
    ensures KeyNamesUnit(alias, Lookup(alias).value)
  {
    var n := UpperLongName(Lookup(alias).value);
    match Lookup(alias).value
    case EB => assert n + "S" == "EXABYTES";
    case ZB => assert n + "S" == "ZETTABYTES";
    case YB => assert n + "S" == "YOTTABYTES";
  }

  /** Every key of the alias table is one of its unit's display names, upper-cased. */
  lemma LookupSound(alias: string)
    requires Lookup(alias).Some?
    ensures IsAliasOf(alias, Lookup(alias).value)
  {
    var u := Lookup(alias).value;
    KeyIsName(alias);
    ShortNameUpper(u);
    UpperPlural(LongName(u));
  }

  /**
   * The alias table says exactly what the display tables say: an alias names
   * a unit if and only if it is that unit's short, long or plural long name
   * in upper case.
   */
  lemma LookupExact(alias: string, u: Unit)
    ensures Lookup(alias) == Some(u) <==> IsAliasOf(alias, u)
  {
    NamesLookUp(u);
    if Lookup(alias) == Some(u) {
      LookupSound(alias);
    }
  }

  predicate IsUpperLetter(c: char) {
    'A' <= c <= 'Z'
  }

  predicate IsLetter(c: char) {
    'a' <= c <= 'z' || 'A' <= c <= 'Z'
  }

  predicate IsWord(s: string) {
    s != [] && forall i | 0 <= i < |s| :: IsLetter(s[i])
  }

  /** The display names are words of ASCII letters. */
  lemma NamesAreWords(u: Unit)
    ensures IsWord(ShortName(u)) && IsWord(LongName(u)) && IsWord(LongName(u) + "s")
  {
    ShortNameIsWord(u);
    LongNameIsWord(u);
  }

  lemma ShortNameIsWord(u: Unit)
    ensures IsWord(ShortName(u))
  {
  }

  lemma LongNameIsWord(u: Unit)
    ensures IsWord(LongName(u))
  {
  }

  /** Upper-casing a word of letters gives a word of upper-case letters. */
  lemma UpperWord(s: string)
    requires IsWord(s)
    ensures ToUpper(s) != [] && forall i | 0 <= i < |ToUpper(s)| :: IsUpperLetter(ToUpper(s)[i])
  {
  }

  /** Every alias is a non-empty word of upper-case ASCII letters. */
  lemma AliasIsWord(alias: string)
    requires Lookup(alias).Some?
    ensures alias != [] && forall i | 0 <= i < |alias| :: IsUpperLetter(alias[i])
  {
    var u := Lookup(alias).value;
    LookupSound(alias);
    NamesAreWords(u);
    if alias == ToUpper(ShortName(u)) {
      UpperWord(ShortName(u));
    } else if alias == ToUpper(LongName(u)) {
      UpperWord(LongName(u));
    } else {
      UpperWord(LongName(u) + "s");
    }
  }

  /** Multipliers grow strictly with the unit's position, by at least 1024 per step. */
  lemma {:induction false} MultIncreasing(u: Unit, v: Unit)
    requires Index(u) < Index(v)
    ensures 1024 * Mult(u) <= Mult(v)
  {
    PowMonotone(1024, Index(u) + 1, Index(v));
  }
}
