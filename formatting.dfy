/**
 * `Format`, `String` and the private `format`: a size is shown as a number
 * followed by a unit label, with the unit either named by the caller or
 * chosen from the size's magnitude.
 */
module Formatting {
  import opened Wrappers
  import opened Text
  import opened Units

  /** `ByteSize`: a count of bytes. */
  type ByteSize = real

  /**
   * The float-to-text conversions the formatter relies on: `render(format, q)`
   * is `fmt.Sprintf(format, q)`, and `readBack(t)` is the value
   * `strconv.ParseFloat(t, 64)` returns for `t` (zero when `t` is no number).
   */
  datatype Printer = Printer(render: (string, real) -> string, readBack: string -> real)

  /** `New`: the size of `s` bytes. */
  function New(s: real): ByteSize {
    s
  }

  /** The number shown for `b` in unit `u`: `b/u`. */
  function Scaled(b: ByteSize, u: Unit): (q: real)
    ensures q * (Mult(u) as real) == b
  {
    b / (Mult(u) as real)
  }

  /**
   * The plural rule of a scaled unit: the number as rendered, read back,
   * is positive and not one.
   */
  predicate ShowsPlural(p: Printer, format: string, q: real) {
    var v := p.readBack(TrimSpace(p.render(format, q)));
    v > 0.0 && v != 1.0
  }

  /** The unit label: the short name, or the long name with an optional "s". */
  function Label(u: Unit, longUnits: bool, plural: bool): (l: string)
    ensures Lookup(ToUpper(l)) == Some(u)
  {
    NamesLookUp(u);
    if !longUnits then ShortName(u)
    else if plural then LongName(u) + "s"
    else LongName(u)
  }

  /** The rendered number followed by the label; the label is what follows the number. */
  function Labelled(r: string, l: string): (s: string)
    ensures r <= s && s[|r|..] == l
  {
    r + l
  }

  /** The threshold switch: the largest unit whose multiplier is at most `b`, else bytes. */
  function ChooseUnit(b: ByteSize): (u: Unit)
    ensures u == B || Mult(u) as real <= b
    ensures forall v: Unit :: Index(u) < Index(v) ==> b < Mult(v) as real
  {
    if b >= Mult(YB) as real then YB
    else if b >= Mult(ZB) as real then ZB
    else if b >= Mult(EB) as real then EB
    else if b >= Mult(PB) as real then PB
    else if b >= Mult(TB) as real then TB
    else if b >= Mult(GB) as real then GB
    else if b >= Mult(MB) as real then MB
    else if b >= Mult(KB) as real then KB
    else B
  }

  /**
   * `b.Format(format, unit, longUnits)`. A non-empty `unit` is looked up in
   * any case; without one the unit is chosen from `b`. The long label takes
   * an "s" by the plural rule, except for automatically chosen bytes, where
   * it is `b` itself that must be positive and not one.
   */
  function Format(b: ByteSize, format: string, unit: string, longUnits: bool, p: Printer): (s: string)
    ensures unit == "" || Lookup(ToUpper(unit)).Some? ==>
      var u := if unit == "" then ChooseUnit(b) else Lookup(ToUpper(unit)).value;
      var r := p.render(format, Scaled(b, u));
      r <= s && Lookup(ToUpper(s[|r|..])) == Some(u)
  {
    if unit != "" then
      match Lookup(ToUpper(unit))
      case None => "Unrecognized unit: " + unit
      case Some(u) =>
        var q := Scaled(b, u);
        Labelled(p.render(format, q), Label(u, longUnits, ShowsPlural(p, format, q)))
    else
      var u := ChooseUnit(b);
      var q := Scaled(b, u);
      var plural := if u == B then b > 0.0 && b != 1.0 else ShowsPlural(p, format, q);
      Labelled(p.render(format, q), Label(u, longUnits, plural))
  }

  /** The package variables `Format` and `LongUnits`, which `String` reads. */
  class Config {
    var format: string
    var longUnits: bool

    /** The defaults: two decimals and short labels. */
    constructor()
      ensures format == "%.2f" && !longUnits
    {
      format := "%.2f";
      longUnits := false;
    }

    /**
     * `b.String()`: the automatic unit, the current format and label style;
     * it shows what an explicit request for the chosen unit would show,
     * except for long byte labels.
     */
    function String(b: ByteSize, p: Printer): (s: string)
      reads this
      ensures !longUnits ==> s == p.render(format, Scaled(b, ChooseUnit(b))) + ShortName(ChooseUnit(b))
      ensures ChooseUnit(b) != B || !longUnits ==> s == Format(b, format, ShortName(ChooseUnit(b)), longUnits, p)
    {
      if ChooseUnit(b) != B || !longUnits then
        FormatAutoIsExplicit(b, format, longUnits, p);
        Format(b, format, "", longUnits, p)
      else
        Format(b, format, "", longUnits, p)
    }
  }

  /** An unknown unit name is echoed in the error text, whatever the size. */
  lemma FormatUnknownUnit(b: ByteSize, format: string, unit: string, longUnits: bool, p: Printer)
    requires unit != "" && Lookup(ToUpper(unit)).None?
    ensures Format(b, format, unit, longUnits, p) == "Unrecognized unit: " + unit
  {
  }

  /**
   * Any alias of a unit, in any case, scales `b` by that unit whatever its
   * magnitude, and labels it with that unit's name.
   */
  lemma FormatExplicit(b: ByteSize, format: string, unit: string, longUnits: bool, p: Printer, u: Unit)
    requires IsAliasOf(ToUpper(unit), u)
    ensures Format(b, format, unit, longUnits, p) ==
      p.render(format, Scaled(b, u)) + Label(u, longUnits, ShowsPlural(p, format, Scaled(b, u)))
  {
    LookupExact(ToUpper(unit), u);
    AliasIsWord(ToUpper(unit));
  }

  /** The unit name is read without regard to case. */
  lemma FormatCaseInsensitive(b: ByteSize, format: string, unit: string, longUnits: bool, p: Printer)
    requires unit == "" || Lookup(ToUpper(unit)).Some?
    ensures Format(b, format, unit, longUnits, p) == Format(b, format, ToUpper(unit), longUnits, p)
  {
    ToUpperIdempotent(unit);
  }

  /**
   * Without a unit the result is the one for the chosen unit named
   * explicitly, except for long byte labels.
   */
  lemma FormatAutoIsExplicit(b: ByteSize, format: string, longUnits: bool, p: Printer)
    requires ChooseUnit(b) != B || !longUnits
    ensures Format(b, format, "", longUnits, p) == Format(b, format, ShortName(ChooseUnit(b)), longUnits, p)
  {
    var u := ChooseUnit(b);
    ShortNameUpper(u);
    FormatExplicit(b, format, ShortName(u), longUnits, p, u);
  }

  /**
   * The threshold switch picks `u` exactly when `b` reaches `u`'s multiplier
   * (or `u` is bytes) and stays below the next one (or `u` is the largest).
   */
  lemma ChooseUnitExact(b: ByteSize, u: Unit)
    ensures ChooseUnit(b) == u <==>
      && (u == B || Mult(u) as real <= b)
      && (u == YB || b < (1024 * Mult(u)) as real)
  {
    var w := ChooseUnit(b);
    if w == u {
      if u != YB {
        assert Index(u) < Index(Next(u));
      }
    } else if (u == B || Mult(u) as real <= b) && (u == YB || b < (1024 * Mult(u)) as real) {
      if Index(u) < Index(w) {
        MultIncreasing(u, w);
      }
    }
  }

  /** The number shown for a size of at least one byte lies in [1, 1024), YB excepted. */
  lemma ScaledRange(b: ByteSize)
    requires b >= 1.0
    ensures 1.0 <= Scaled(b, ChooseUnit(b))
    ensures ChooseUnit(b) != YB ==> Scaled(b, ChooseUnit(b)) < 1024.0
  {
    var u := ChooseUnit(b);
    ChooseUnitExact(b, u);
  }

  /** A larger size never gets a smaller unit. */
  lemma ChooseUnitMonotone(a: ByteSize, b: ByteSize)
    requires a <= b
    ensures Index(ChooseUnit(a)) <= Index(ChooseUnit(b))
  {
  }

  /** Each unit's own multiplier is shown as one of that unit. */
  lemma ChooseUnitOfMult(u: Unit)
    ensures ChooseUnit(Mult(u) as real) == u
    ensures Scaled(Mult(u) as real, u) == 1.0
  {
    ChooseUnitExact(Mult(u) as real, u);
  }

  /** A size of zero or less is shown in bytes, with the singular long label. */
  lemma FormatNonPositiveSingular(b: ByteSize, format: string, p: Printer)
    requires b <= 0.0
    ensures Format(b, format, "", true, p) == p.render(format, b) + "byte"
  {
  }

  /**
   * Automatically chosen bytes take the plural from the size itself: one
   * byte is singular and every other positive count below a kilobyte plural.
   */
  lemma FormatBytesPlural(b: ByteSize, format: string, p: Printer)
    requires 0.0 < b < 1024.0
    ensures b == 1.0 ==> Format(b, format, "", true, p) == p.render(format, 1.0) + "byte"
    ensures b != 1.0 ==> Format(b, format, "", true, p) == p.render(format, b) + "bytes"
  {
    ChooseUnitExact(b, B);
  }

  /** Above bytes, one of a unit is singular, given a rendering of 1 that reads back as 1. */
  lemma FormatOneOfUnit(format: string, p: Printer, u: Unit)
    requires u != B
    requires p.readBack(TrimSpace(p.render(format, 1.0))) == 1.0
    ensures Format(Mult(u) as real, format, "", true, p) == p.render(format, 1.0) + LongName(u)
  {
    ChooseUnitOfMult(u);
  }

  /** An automatically chosen unit above bytes takes the long plural label when the rendering reads back plural. */
  lemma FormatAutoLongPlural(b: ByteSize, format: string, p: Printer)
    requires ChooseUnit(b) != B && ShowsPlural(p, format, Scaled(b, ChooseUnit(b)))
    ensures Format(b, format, "", true, p) == p.render(format, Scaled(b, ChooseUnit(b))) + LongName(ChooseUnit(b)) + "s"
  {
    var u := ChooseUnit(b);
    assert Label(u, true, true) == LongName(u) + "s";
  }

  /** Above bytes, two of a unit are plural, given a rendering of 2 that reads back as 2. */
  lemma FormatTwoOfUnit(format: string, p: Printer, u: Unit)
    requires u != B
    requires p.readBack(TrimSpace(p.render(format, 2.0))) == 2.0
    ensures Format(2.0 * Mult(u) as real, format, "", true, p) == p.render(format, 2.0) + LongName(u) + "s"
  {
    var m := Mult(u) as real;
    var b := 2.0 * m;
    assert m >= 1.0 && (u == YB || b < (1024 * Mult(u)) as real);
    ChooseUnitExact(b, u);
    assert Scaled(b, u) == 2.0;
    FormatAutoLongPlural(b, format, p);
  }

  /** The explicit unit "byte", in short labels. */
  lemma FormatTableByte(p: Printer)
    ensures Format(New(1.0), "%.0f ", "byte", false, p) == p.render("%.0f ", 1.0) + "B"
  {
    assert ToUpper("byte") == ToUpper(LongName(B));
    FormatExplicit(New(1.0), "%.0f ", "byte", false, p, B);
  }

  /** The explicit unit "kb", in lower case. */
  lemma FormatTableKilo(p: Printer)
    ensures Format(New(1024.0), "%.0f ", "kb", false, p) == p.render("%.0f ", 1.0) + "KB"
  {
    assert ToUpper("kb") == ToUpper(ShortName(KB));
    FormatExplicit(New(1024.0), "%.0f ", "kb", false, p, KB);
  }

  /** The explicit unit "GB" keeps gigabytes for a terabyte and for a petabyte. */
  lemma FormatTableGiga(p: Printer)
    ensures Format(New(1099511627776.0), "%.0f ", "GB", false, p) == p.render("%.0f ", 1024.0) + "GB"
    ensures Format(New(1125899906842624.0), "%.0f ", "GB", false, p) == p.render("%.0f ", 1048576.0) + "GB"
  {
    assert ToUpper("GB") == ToUpper(ShortName(GB));
    FormatExplicit(New(1099511627776.0), "%.0f ", "GB", false, p, GB);
    FormatExplicit(New(1125899906842624.0), "%.0f ", "GB", false, p, GB);
  }

  /** An unknown unit name. */
  lemma FormatTablePotato(p: Printer)
    ensures Format(New(1125899906842624.0), "%.0f ", "potato", false, p) == "Unrecognized unit: potato"
  {
  }

  /** With the default settings each unit's multiplier is shown as 1 of that unit in short form. */
  lemma StringDefaultOfMult(c: Config, p: Printer, u: Unit)
    requires c.format == "%.2f" && !c.longUnits
    ensures c.String(New(Mult(u) as real), p) == p.render("%.2f", 1.0) + ShortName(u)
  {
    ChooseUnitOfMult(u);
  }

  /** With the default settings one byte short of a kilobyte is still shown in bytes. */
  lemma StringDefaultBelowKilo(c: Config, p: Printer)
    requires c.format == "%.2f" && !c.longUnits
    ensures c.String(New(1023.0), p) == p.render("%.2f", 1023.0) + "B"
  {
    ChooseUnitExact(1023.0, B);
  }

  /** Sums and differences of sizes are shown in the unit their value falls in. */
  lemma ChooseUnitArithmeticExamples()
    ensures ChooseUnit(1024.0 + 1024.0) == KB && Scaled(2048.0, KB) == 2.0
    ensures ChooseUnit(1073741824.0 + 10485760.0) == GB && Scaled(1084227584.0, GB) == 1.009765625
    ensures ChooseUnit(1073741824.0 - 536870912.0) == MB && Scaled(536870912.0, MB) == 512.0
  {
    ChooseUnitExact(2048.0, KB);
    ChooseUnitExact(1084227584.0, GB);
    ChooseUnitExact(536870912.0, MB);
  }
}
