/**
 * `Parse`: a byte-size string is a run of decimal digits, optional spaces and
 * a unit alias in any case, with spaces allowed around the whole.
 */
module Parsing {
  import opened Wrappers
  import opened Text
  import opened Units

  /** The errors `Parse` returns. */
  datatype ParseError =
    | NoSuffix                          // no character after the digits
    | UnrecognizedSuffix(suffix: string) // the text after the digits is no alias
    | SyntaxError(num: string)          // strconv.ParseFloat: invalid syntax
    | RangeError(num: string)           // strconv.ParseFloat: value out of range

  /** The text of each error, as the error's `Error()` method gives it. */
  function Message(e: ParseError): (m: string)
    ensures e.NoSuffix? || e.UnrecognizedSuffix? ==> "Unrecognized size suffix" <= m
    ensures e.SyntaxError? || e.RangeError? ==> "strconv.ParseFloat: parsing \"" + e.num + "\"" <= m
  {
    match e
    case NoSuffix => "Unrecognized size suffix"
    case UnrecognizedSuffix(suffix) => "Unrecognized size suffix " + suffix
    case SyntaxError(num) => "strconv.ParseFloat: parsing \"" + num + "\": invalid syntax"
    case RangeError(num) => "strconv.ParseFloat: parsing \"" + num + "\": value out of range"
  }

  /**
   * 2^1024 - 2^970, half a unit in the last place above the largest finite
   * float64: a decimal integer at least this large rounds to infinity, and
   * `strconv.ParseFloat` reports it as out of range.
   */
  const Float64Overflow: nat := 179769313486231580793728971405303415079934132710037826936173778980444968292764750946649017977587207096330286416692887910946555547851940402630657488671505820681908902000708383676273854845817711531764475730270069855571366959622842914819860834936475292719074168444365510704342711559699508093042880177904174497792

  /** Where the scan over the trimmed input stops: the first character that is not a digit. */
  function FirstNonDigit(t: string): (i: nat)
    ensures i <= |t| && AllDigits(t[..i])
    ensures i < |t| ==> !IsDigit(t[i])
  {
    if t == [] || !IsDigit(t[0]) then 0 else 1 + FirstNonDigit(t[1..])
  }

  /** The scan stops at the first non-digit and nowhere else. */
  lemma {:induction false} FirstNonDigitAt(t: string, i: nat)
    requires i <= |t| && AllDigits(t[..i])
    requires i < |t| ==> !IsDigit(t[i])
    ensures FirstNonDigit(t) == i
  {
    if i > 0 {
      assert t[0] == t[..i][0];
      assert t[1..][..i - 1] == t[..i][1..];
      FirstNonDigitAt(t[1..], i - 1);
    }
  }

  /** `strconv.ParseFloat(num, 64)` on a run of digits. */
  function ParseFloat(num: string): (r: Result<nat, ParseError>)
    requires AllDigits(num)
    ensures r.Ok? <==> num != [] && DigitsValue(num) < Float64Overflow
    ensures r.Ok? ==> r.value == DigitsValue(num)
    ensures r.Err? ==> (r.error.SyntaxError? || r.error.RangeError?) && r.error.num == num
  {
    if num == [] then Err(SyntaxError(num))
    else if DigitsValue(num) >= Float64Overflow then Err(RangeError(num))
    else Ok(DigitsValue(num))
  }

  /**
   * The scan of the trimmed input: split at the first non-digit into the
   * number and the suffix, each trimmed; nothing when every character is a digit.
   */
  function Split(t: string): (r: Option<(string, string)>)
    ensures r == None <==> AllDigits(t)
    ensures r.Some? ==> AllDigits(r.value.0)
  {
    var i := FirstNonDigit(t);
    if i == |t| then
      assert t[..i] == t;
      None
    else
      Some((TrimSpace(t[..i]), TrimSpace(t[i..])))
  }

  /** The unit lookup and number conversion that follow a successful split. */
  function Convert(num: string, suffix: string): (r: Result<real, ParseError>)
    requires AllDigits(num)
    ensures r.Ok? <==> Lookup(ToUpper(suffix)).Some? && num != [] && DigitsValue(num) < Float64Overflow
    ensures r.Ok? ==> r.value == (DigitsValue(num) * Mult(Lookup(ToUpper(suffix)).value)) as real
    ensures Lookup(ToUpper(suffix)).None? ==> r == Err(UnrecognizedSuffix(suffix))
  {
    match Lookup(ToUpper(suffix))
    case None => Err(UnrecognizedSuffix(suffix))
    case Some(u) =>
      match ParseFloat(num)
      case Err(e) => Err(e)
      case Ok(v) => Ok((v * Mult(u)) as real)
  }

  /** What `Parse` computes, as a function of its input. */
  function Parsed(s: string): Result<real, ParseError> {
    match Split(TrimSpace(s))
    case None => Err(NoSuffix)
    case Some((num, suffix)) => Convert(num, suffix)
  }

  /** How `Parsed` decides once the first non-digit of the trimmed text is known. */
  lemma ParsedAt(s: string, i: nat)
    requires i <= |TrimSpace(s)| && AllDigits(TrimSpace(s)[..i])
    requires i < |TrimSpace(s)| ==> !IsDigit(TrimSpace(s)[i])
    ensures i == |TrimSpace(s)| ==> Parsed(s) == Err(NoSuffix)
    ensures TrimSpace(TrimSpace(s)[..i]) == TrimSpace(s)[..i]
    ensures i < |TrimSpace(s)| ==> Parsed(s) == Convert(TrimSpace(s)[..i], TrimSpace(TrimSpace(s)[i..]))
  {
    var t := TrimSpace(s);
    assert Trimmed(t[..i]) by {
      if i > 0 {
        assert IsDigit(t[..i][0]) && IsDigit(t[..i][i - 1]);
      }
    }
    FirstNonDigitAt(t, i);
    if i == |t| {
      assert t[..i] == t;
    }
  }

  /**
   * Parses a byte-size string. On failure the size is zero and the error
   * says why.
   */
  method Parse(s: string) returns (size: real, err: Option<ParseError>)
    ensures Parsed(s).Ok? ==> err == None && size == Parsed(s).value
    ensures Parsed(s).Err? ==> err == Some(Parsed(s).error) && size == 0.0
  {
    var t := TrimSpace(s);
    var split: seq<string> := [];
    var i := 0;
    while i < |t|
      invariant i <= |t|
      invariant AllDigits(t[..i])
      invariant split == []
    {
      if !IsDigit(t[i]) {
        split := split + [TrimSpace(t[..i])];
        split := split + [TrimSpace(t[i..])];
        break;
      }
      i := i + 1;
    }
    ParsedAt(s, i);
    if |split| != 2 {
      assert Parsed(s) == Err(NoSuffix);
      return 0.0, Some(NoSuffix);
    }
    assert Parsed(s) == Convert(split[0], split[1]);
    var unit := Lookup(ToUpper(split[1]));
    if unit.None? {
      assert Parsed(s) == Err(UnrecognizedSuffix(split[1]));
      return 0.0, Some(UnrecognizedSuffix(split[1]));
    }
    var value := ParseFloat(split[0]);
    if value.Err? {
      assert Parsed(s) == Err(value.error);
      return 0.0, Some(value.error);
    }
    size := (value.value * Mult(unit.value)) as real;
    assert Parsed(s) == Ok(size);
    err := None;
  }

  /**
   * The accepted shape: surrounding spaces, a non-empty run of digits,
   * optional spaces, and an alias in any case.
   */
  ghost predicate SizeString(s: string, lead: string, digits: string, gap: string, alias: string, trail: string) {
    && s == lead + digits + gap + alias + trail
    && AllSpace(lead) && AllSpace(gap) && AllSpace(trail)
    && digits != [] && AllDigits(digits)
    && Lookup(ToUpper(alias)).Some?
  }

  /** An alias, in whatever case it is written, starts and ends with a letter. */
  lemma AliasEnds(alias: string)
    requires Lookup(ToUpper(alias)).Some?
    ensures alias != [] && !IsSpace(alias[0]) && !IsDigit(alias[0]) && !IsSpace(alias[|alias| - 1])
  {
    AliasIsWord(ToUpper(alias));
    assert IsUpperLetter(ToUpper(alias)[0]) && IsUpperLetter(ToUpper(alias)[|alias| - 1]);
  }

  /** Splitting digits, spaces and an alias gives back the digits and the alias. */
  lemma SplitAccepts(digits: string, gap: string, alias: string)
    requires digits != [] && AllDigits(digits) && AllSpace(gap)
    requires alias != [] && !IsSpace(alias[0]) && !IsDigit(alias[0]) && !IsSpace(alias[|alias| - 1])
    ensures Split(digits + gap + alias) == Some((digits, alias))
  {
    var t := digits + gap + alias;
    var n := |digits|;
    assert !IsDigit(t[n]) by {
      if gap != [] {
        assert t[n] == gap[0];
      } else {
        assert t[n] == alias[0];
      }
    }
    assert t[..n] == digits;
    FirstNonDigitAt(t, n);
    assert TrimSpace(digits) == digits;
    assert t == digits + (gap + alias);
    assert TrimSpace(t[n..]) == alias by {
      TrimSpaceSurrounded(gap, alias, []);
      assert gap + alias + [] == gap + alias;
    }
  }

  /**
   * Every string of the accepted shape parses to its digits' value times the
   * unit's multiplier, unless the number is beyond the float64 range.
   */
  lemma ParsedAccepts(s: string, lead: string, digits: string, gap: string, alias: string, trail: string)
    requires SizeString(s, lead, digits, gap, alias, trail)
    ensures Parsed(s) ==
      var u := Lookup(ToUpper(alias)).value;
      if DigitsValue(digits) < Float64Overflow then Ok((DigitsValue(digits) * Mult(u)) as real)
      else Err(RangeError(digits))
  {
    AliasEnds(alias);
    var m := digits + gap + alias;
    assert s == lead + m + trail;
    TrimSpaceSurrounded(lead, m, trail);
    SplitAccepts(digits, gap, alias);
  }

  /** An input with nothing but digits after trimming has no unit, and is refused. */
  lemma ParsedNoSuffix(s: string)
    ensures Parsed(s) == Err(NoSuffix) <==> AllDigits(TrimSpace(s))
    ensures AllDigits(TrimSpace(s)) ==> Message(Parsed(s).error) == "Unrecognized size suffix"
  {
  }

  /** Cutting the trimmed text after its digits: spaces, the trimmed suffix, spaces. */
  lemma CutShape(s: string, lead: string, t: string, trail0: string, i: nat) returns (gap: string, trail: string)
    requires s == lead + t + trail0 && AllSpace(lead) && AllSpace(trail0) && i <= |t|
    ensures AllSpace(gap) && AllSpace(trail)
    ensures s == lead + t[..i] + gap + TrimSpace(t[i..]) + trail
  {
    var tail;
    gap, tail := TrimSpaceParts(t[i..]);
    AllSpaceConcat(tail, trail0);
    trail := tail + trail0;
    assert t == t[..i] + t[i..];
  }

  /**
   * Conversely, every input `Parse` accepts has the accepted shape, and its
   * value is that shape's digits times its unit: nothing else is accepted.
   */
  lemma ParsedOnlyAccepts(s: string) returns (lead: string, digits: string, gap: string, alias: string, trail: string)
    requires Parsed(s).Ok?
    ensures SizeString(s, lead, digits, gap, alias, trail)
    ensures Parsed(s).value == (DigitsValue(digits) * Mult(Lookup(ToUpper(alias)).value)) as real
  {
    var t := TrimSpace(s);
    var trail0;
    lead, trail0 := TrimSpaceParts(s);
    var i := FirstNonDigit(t);
    ParsedAt(s, i);
    digits, alias := t[..i], TrimSpace(t[i..]);
    gap, trail := CutShape(s, lead, t, trail0, i);
  }

  /** Powers of ten written out, built by repeated squaring. */
  lemma Pow10At18()
    ensures Pow(10, 18) == 1000000000000000000
  {
    assert Pow(10, 9) == 1000000000;
    PowAdd(10, 9, 9);
  }

  lemma Pow10At36()
    ensures Pow(10, 36) == 1000000000000000000000000000000000000
  {
    Pow10At18();
    PowAdd(10, 18, 18);
  }

  lemma Pow10At72()
    ensures Pow(10, 72) == 1000000000000000000000000000000000000000000000000000000000000000000000000
  {
    Pow10At36();
    PowAdd(10, 36, 36);
  }

  lemma Pow10At144()
    ensures Pow(10, 144) == 1000000000000000000000000000000000000000000000000000000000000000000000000000000000000000000000000000000000000000000000000000000000000000000000000
  {
    Pow10At72();
    PowAdd(10, 72, 72);
  }

  lemma Pow10At288()
    ensures Pow(10, 288) == 1000000000000000000000000000000000000000000000000000000000000000000000000000000000000000000000000000000000000000000000000000000000000000000000000000000000000000000000000000000000000000000000000000000000000000000000000000000000000000000000000000000000000000000000000000000000000000000000000
  {
    Pow10At144();
    PowAdd(10, 144, 144);
  }

  lemma Pow10At306()
    ensures Pow(10, 306) == 1000000000000000000000000000000000000000000000000000000000000000000000000000000000000000000000000000000000000000000000000000000000000000000000000000000000000000000000000000000000000000000000000000000000000000000000000000000000000000000000000000000000000000000000000000000000000000000000000000000000000000000
  {
    Pow10At288();
    Pow10At18();
    PowAdd(10, 288, 18);
  }

  lemma Pow10At309()
    ensures Pow(10, 309) == 1000000000000000000000000000000000000000000000000000000000000000000000000000000000000000000000000000000000000000000000000000000000000000000000000000000000000000000000000000000000000000000000000000000000000000000000000000000000000000000000000000000000000000000000000000000000000000000000000000000000000000000000
  {
    Pow10At306();
    assert Pow(10, 3) == 1000;
    PowAdd(10, 306, 3);
  }

  /** The overflow threshold has 309 digits. */
  lemma OverflowBelowPow10()
    ensures Float64Overflow < Pow(10, 309)
  {
    Pow10At309();
  }

  /**
   * A number of 310 digits or more without a leading zero is out of range:
   * the input is refused with `ParseFloat`'s range error even though its unit is valid.
   */
  lemma ParsedOverflow(s: string, lead: string, digits: string, gap: string, alias: string, trail: string)
    requires SizeString(s, lead, digits, gap, alias, trail)
    requires |digits| >= 310 && digits[0] != '0'
    ensures Parsed(s) == Err(RangeError(digits))
  {
    DigitsValueAtLeast(digits);
    PowMonotone(10, 309, |digits| - 1);
    OverflowBelowPow10();
    ParsedAccepts(s, lead, digits, gap, alias, trail);
  }

  /** The range-error test input, with the unit B after it, is a size string of 310 digits. */
  lemma OverflowShape()
    ensures |OverflowInput| == 310 && OverflowInput[0] == '1'
    ensures SizeString(OverflowInput + "B", [], OverflowInput, [], "B", [])
  {
    NamesLookUp(B);
    assert ShortName(B) == "B";
    var head: string := "1797693134862315708145274237317043567981";
    assert AllDigits(head) && |head| == 40 && head[0] == '1';
    assert OverflowInput[0] == head[0];
    var e: string := [];
    assert OverflowInput + "B" == e + OverflowInput + e + "B" + e;
  }

  /** The largest float64 written out in full with a unit, which has 310 digits, is refused. */
  lemma ParsedOverflowExample()
    ensures Parsed(OverflowInput + "B") == Err(RangeError(OverflowInput))
  {
    OverflowShape();
    ParsedOverflow(OverflowInput + "B", [], OverflowInput, [], "B", []);
  }

  /** The number the range-error test feeds to the parser: 40 significant digits and 270 zeros. */
  const OverflowInput: string := "1797693134862315708145274237317043567981" + seq(270, _ => '0')

  /** A numeral followed directly by an alias has the accepted shape. */
  lemma NumeralShape(n: nat, alias: string)
    requires Lookup(ToUpper(alias)).Some?
    ensures SizeString(Decimal(n) + alias, [], Decimal(n), [], alias, [])
  {
    var d := Decimal(n);
    var e: string := [];
    assert e + d + e == d;
    assert d + alias + e == d + alias;
  }

  /**
   * A numeral followed by any alias of a unit parses back to the number
   * times the unit's multiplier, as long as the number is within float64 range.
   */
  lemma ParsedRoundTrip(n: nat, alias: string, u: Unit)
    requires n < Float64Overflow
    requires Lookup(ToUpper(alias)) == Some(u)
    ensures Parsed(Decimal(n) + alias) == Ok((n * Mult(u)) as real)
  {
    DecimalRoundTrip(n);
    NumeralShape(n, alias);
    ParsedAccepts(Decimal(n) + alias, [], Decimal(n), [], alias, []);
  }

  /** "1B" and "1B ": one byte; trailing spaces are trimmed. */
  lemma ParsedOneByte()
    ensures Parsed("1B") == Ok(1.0)
    ensures Parsed("1B ") == Ok(1.0)
  {
    NamesLookUp(B);
    assert ShortName(B) == "B";
    assert DigitsValue("1") == 1;
    assert "1B" == "" + "1" + "" + "B" + "";
    assert "1B " == "" + "1" + "" + "B" + " ";
    ParsedAccepts("1B", "", "1", "", "B", "");
    ParsedAccepts("1B ", "", "1", "", "B", " ");
  }

  /** "1 B" and " 1 B ": spaces between and around are allowed. */
  lemma ParsedSpacedByte()
    ensures Parsed("1 B") == Ok(1.0)
    ensures Parsed(" 1 B ") == Ok(1.0)
  {
    NamesLookUp(B);
    assert ShortName(B) == "B";
    assert DigitsValue("1") == 1;
    assert "1 B" == "" + "1" + " " + "B" + "";
    assert " 1 B " == " " + "1" + " " + "B" + " ";
    ParsedAccepts("1 B", "", "1", " ", "B", "");
    ParsedAccepts(" 1 B ", " ", "1", " ", "B", " ");
  }

  /** "1 byte": the long alias, in lower case. */
  lemma ParsedLongName()
    ensures Parsed("1 byte") == Ok(1.0)
  {
    NamesLookUp(B);
    assert LongName(B) == "byte";
    assert DigitsValue("1") == 1;
    assert "1 byte" == "" + "1" + " " + "byte" + "";
    ParsedAccepts("1 byte", "", "1", " ", "byte", "");
  }

  /** "2 bytes": the plural long alias, in lower case. */
  lemma ParsedLongPlural()
    ensures Parsed("2 bytes") == Ok(2.0)
  {
    NamesLookUp(B);
    assert LongName(B) + "s" == "bytes";
    assert DigitsValue("2") == 2;
    assert "2 bytes" == "" + "2" + " " + "bytes" + "";
    ParsedAccepts("2 bytes", "", "2", " ", "bytes", "");
  }

  /** The shape of an input with a suffix: spaces, digits, spaces, a suffix and spaces. */
  predicate SuffixString(s: string, lead: string, digits: string, gap: string, suffix: string, trail: string) {
    && s == lead + digits + gap + suffix + trail
    && AllSpace(lead) && AllSpace(gap) && AllSpace(trail) && AllDigits(digits)
    && suffix != [] && Trimmed(suffix)
    && (!IsDigit(suffix[0]) || (digits != [] && gap != []))
  }

  /**
   * Where the scan of such an input stops, and what it splits it into: the
   * trimmed text is `m`, its first non-digit is at `i`, and the trimmed text
   * after `i` is the suffix.
   */
  lemma SuffixCut(s: string, lead: string, digits: string, gap: string, suffix: string, trail: string)
    returns (m: string, i: nat)
    requires SuffixString(s, lead, digits, gap, suffix, trail)
    ensures TrimSpace(s) == m && i < |m| && AllDigits(m[..i]) && !IsDigit(m[i])
    ensures m[..i] == digits && TrimSpace(m[i..]) == suffix
  {
    if digits == [] {
      m, i := suffix, 0;
      AllSpaceConcat(lead, gap);
      assert s == (lead + gap) + suffix + trail;
      TrimSpaceSurrounded(lead + gap, suffix, trail);
      TrimSpaceSurrounded([], suffix, []);
      assert [] + suffix + [] == suffix;
    } else {
      m, i := digits + gap + suffix, |digits|;
      assert Trimmed(m) by {
        assert m[0] == digits[0];
        assert m[|m| - 1] == suffix[|suffix| - 1];
      }
      assert s == lead + m + trail;
      TrimSpaceSurrounded(lead, m, trail);
      assert m[i] == if gap != [] then gap[0] else suffix[0];
      assert m[..i] == digits;
      assert m[i..] == gap + suffix + [];
      TrimSpaceSurrounded(gap, suffix, []);
    }
  }

  /**
   * Whatever follows the digit run is the suffix, taken whole: unless it is
   * an alias, the input is refused with that suffix.
   */
  lemma ParsedUnknownSuffix(s: string, lead: string, digits: string, gap: string, suffix: string, trail: string)
    requires SuffixString(s, lead, digits, gap, suffix, trail)
    requires Lookup(ToUpper(suffix)).None?
    ensures Parsed(s) == Err(UnrecognizedSuffix(suffix))
    ensures Message(Parsed(s).error) == "Unrecognized size suffix " + suffix
  {
    var m, i := SuffixCut(s, lead, digits, gap, suffix, trail);
    ParsedAt(s, i);
  }

  /** An alias with no number before it, whatever spaces surround it, is a number syntax error. */
  lemma ParsedNoNumber(s: string, lead: string, alias: string, trail: string)
    requires s == lead + alias + trail && AllSpace(lead) && AllSpace(trail)
    requires Lookup(ToUpper(alias)).Some?
    ensures Parsed(s) == Err(SyntaxError(""))
    ensures Message(Parsed(s).error) == "strconv.ParseFloat: parsing \"\": invalid syntax"
  {
    AliasEnds(alias);
    assert s == lead + [] + [] + alias + trail;
    var m, i := SuffixCut(s, lead, [], [], alias, trail);
    ParsedAt(s, i);
    EmptyNumberMessage();
  }

  lemma EmptyNumberMessage()
    ensures Message(SyntaxError("")) == "strconv.ParseFloat: parsing \"\": invalid syntax"
  {
  }

  /** A text with a character that is no letter after upper-casing is no alias. */
  lemma NotAnAlias(x: string, i: nat)
    requires i < |x| && !IsUpperLetter(UpperChar(x[i]))
    ensures Lookup(ToUpper(x)).None?
  {
    var y := ToUpper(x);
    assert !IsUpperLetter(y[i]);
    if Lookup(y).Some? {
      AliasIsWord(y);
    }
  }

  /** "1KB 1023B": only one number and one unit are accepted. */
  lemma ParsedTwoNumbers()
    ensures Parsed("1KB 1023B") == Err(UnrecognizedSuffix("KB 1023B"))
  {
    assert "1KB 1023B" == "" + "1" + "" + "KB 1023B" + "";
    NotAnAlias("KB 1023B", 2);
    ParsedUnknownSuffix("1KB 1023B", "", "1", "", "KB 1023B", "");
  }

  /** "1 2KB": a second number after spaces belongs to the suffix. */
  lemma ParsedSecondNumber()
    ensures Parsed("1 2KB") == Err(UnrecognizedSuffix("2KB"))
  {
    assert "1 2KB" == "" + "1" + " " + "2KB" + "";
    NotAnAlias("2KB", 0);
    ParsedUnknownSuffix("1 2KB", "", "1", " ", "2KB", "");
  }

  /** "1.5MB": the decimal point ends the number. */
  lemma ParsedFraction()
    ensures Parsed("1.5MB") == Err(UnrecognizedSuffix(".5MB"))
  {
    assert "1.5MB" == "" + "1" + "" + ".5MB" + "";
    NotAnAlias(".5MB", 0);
    ParsedUnknownSuffix("1.5MB", "", "1", "", ".5MB", "");
  }

  /** "-5 MB": a sign is no digit, so the whole input is the suffix. */
  lemma ParsedSigned()
    ensures Parsed("-5 MB") == Err(UnrecognizedSuffix("-5 MB"))
  {
    assert "-5 MB" == "" + "" + "" + "-5 MB" + "";
    NotAnAlias("-5 MB", 0);
    ParsedUnknownSuffix("-5 MB", "", "", "", "-5 MB", "");
  }

  /** "1": digits alone have no unit. */
  lemma ParsedDigitsOnly()
    ensures Parsed("1") == Err(NoSuffix)
  {
    var t: string := "1";
    assert Trimmed(t) && AllDigits(t);
    TrimSpaceSurrounded([], t, []);
    assert [] + t + [] == t;
    ParsedAt(t, 1);
  }

  /** "KB": a unit alone has no number. */
  lemma ParsedUnitOnly()
    ensures Parsed("KB") == Err(SyntaxError(""))
  {
    NamesLookUp(KB);
    assert ShortName(KB) == "KB";
    assert "KB" == "" + "KB" + "";
    ParsedNoNumber("KB", "", "KB", "");
  }
}
