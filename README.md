# go-bytesize in Dafny

A model of the Go package `bytesize`, which represents a count of bytes as a
`ByteSize`. The package parses strings such as "1024 GB", "2 bytes" or
" 1 B " into a `ByteSize`. It renders a `ByteSize` back as a number followed
by a binary unit (B, KB, … YB, each 1024 times the one before), in short
("KB") or long ("kilobytes") form.

The model has five modules:

- `Wrappers`: `Option` and `Result`.
- `Text`: the pieces of Go's `strings`, `unicode` and `strconv` that the
  package relies on. These are `strings.TrimSpace` (with the full
  `unicode.IsSpace` set), `strings.ToUpper` and `unicode.IsDigit` for ASCII,
  and the value of a run of decimal digits.
- `Units`: the nine units and their multipliers, `1 << (10 * iota)`. It also
  holds the two display tables (`shortUnitMap`, `longUnitMap`) and the input
  alias table `unitMap`, with lemmas that the three tables agree.
- `Parsing`:
  - `Parse` is a method whose loop scans the trimmed input for its first
    non-digit, as the Go loop does.
  - `Parsed` is the function that specifies it.
  - Lemmas state which inputs are accepted, what they parse to, and which
    error every other input gets.
- `Formatting`:
  - `Format` and the private `format` it calls; `New` is the identity.
  - The automatic unit choice (`ChooseUnit`) and the plural rule.
  - A `Config` class for the package variables `Format` and `LongUnits`,
    whose `String` reads them.

A `ByteSize` is modelled as an exact `real`. `fmt.Sprintf` of a number and
`strconv.ParseFloat` of the rendered text are not modelled. They are the two
function fields of a `Printer` value that the formatter takes as a parameter.
What the formatter decides around them is modelled exactly: the unit, the
scaled quantity, the label, singular or plural, and the error text.

Three points of the code that the model keeps as written:

- **A displayed zero stays singular.** The "s" is added only when the
  rendered value read back is `> 0 && != 1` (`bytesize.go:178`). So
  "0 kilobyte", "0 byte" and negative sizes stay singular
  (`Formatting.FormatNonPositiveSingular`).
- **Bytes chosen automatically use the raw size.** The plural decision for
  them uses `b` itself (`bytesize.go:269`), not the rendered value. An
  explicit unit "byte" uses the rendered value (`bytesize.go:178`).
- **An overflowing product is not an error.** The product of the number and
  the unit is not checked (`bytesize.go:148`). Only a number that
  `strconv.ParseFloat` itself cannot hold is refused (`Parsing.ParsedOverflow`).

## Model

| member | source | states |
|---|---|---|
| Units.Mult | bytesize.go:28-38 | The unit's multiplier is 1024 to the power of its position in the constant block. |
| Units.MultIsShift | bytesize.go:28-38 | Each multiplier equals `1 << (10 * iota)`; B's 1 is the shift by zero. |
| Units.ShiftTens | bytesize.go:30 | `1 << (10 * k)` is 1024 to the power k. |
| Units.Next | bytesize.go:28-38 | Each unit but YB has a successor one position up, with 1024 times its multiplier. |
| Units.MultIncreasing | bytesize.go:28-38 | A unit further up has a multiplier at least 1024 times larger. |
| Units.Lookup | bytesize.go:67-103 | `unitMap[alias]` with its `ok` flag; its contents are stated by `Units.LookupExact` and `Units.KeyIsName`. |
| Units.ShortName | bytesize.go:54-64 | `shortUnitMap`: one name per unit; stated by `Units.ShortNameUpper`, `Units.NamesAreWords` and `Units.NamesLookUp`. |
| Units.LongName | bytesize.go:41-51 | `longUnitMap`: one name per unit; stated by `Units.UpperLongName`, `Units.NamesAreWords` and `Units.NamesLookUp`. |
| Units.UpperLongName | bytesize.go:41-51 | The upper-case long name of each unit is `strings.ToUpper` of its `longUnitMap` entry. |
| Units.ShortNameUpper | bytesize.go:54-64 | The short names are already upper case. |
| Units.NamesLookUp | bytesize.go:41-103 | For every unit, the upper-cased short name, long name and long name plus "s" all look up to that unit in `unitMap`. |
| Units.KeyIsName | bytesize.go:67-103 | Every key of `unitMap` is its unit's short name, or its upper-case long name in singular or plural. |
| Units.LookupSound | bytesize.go:67-103 | Every key of `unitMap` is one of its unit's display names, upper-cased. |
| Units.LookupExact | bytesize.go:41-103 | An alias looks up to a unit if and only if it is one of that unit's three display names, upper-cased. |
| Units.AliasIsWord | bytesize.go:67-103 | Every alias is a non-empty word of upper-case ASCII letters. |
| Units.NamesAreWords | bytesize.go:41-64 | All display names, and the long plurals, are non-empty words of ASCII letters. |
| Text.IsSpace | bytesize.go:119 | `unicode.IsSpace`: the ASCII spaces \t, \n, \v, \f, \r and space, and U+0085, U+00A0, U+1680, U+2000-U+200A, U+2028, U+2029, U+202F, U+205F, U+3000. |
| Text.IsDigit | bytesize.go:123 | `unicode.IsDigit` on ASCII: '0' to '9'. |
| Text.TrimSpace | bytesize.go:119 | `strings.TrimSpace`, as left trimming then right trimming; stated by `Text.TrimSpaceSpec`. |
| Text.ToUpper | bytesize.go:137 | `strings.ToUpper` on ASCII, character by character; stated by `Text.ToUpperIdempotent`. |
| Text.TrimLeftSpec | bytesize.go:119 | Left trimming keeps a suffix that does not start with a space, and removes only spaces. |
| Text.TrimRightSpec | bytesize.go:119 | Right trimming keeps a prefix that does not end with a space, and removes only spaces. |
| Text.TrimSpaceSpec | bytesize.go:119 | `strings.TrimSpace` keeps a contiguous piece with no space at either end; everything removed on either side is space. |
| Text.TrimSpaceParts | bytesize.go:119 | The input is the trimmed text with all-space pieces before and after it. |
| Text.TrimSpaceSurrounded | bytesize.go:119 | Trimming a text that has no space at its ends, with any spaces around it, gives back exactly that text. |
| Text.ToUpperIdempotent | bytesize.go:137 | Upper-casing twice is upper-casing once. |
| Text.DecimalRoundTrip | bytesize.go:143 | Reading back the decimal numeral of n gives n. |
| Text.DigitsValueAtLeast | bytesize.go:143 | A numeral of k digits without a leading zero is at least 10^(k-1). |
| Parsing.Message | bytesize.go:133-139 | Both suffix errors start with "Unrecognized size suffix"; both `strconv.ParseFloat` errors quote the number they were given. |
| Parsing.ParseFloat | bytesize.go:143-146 | A run of digits converts if and only if it is non-empty and below the float64 overflow threshold, to the digits' value; otherwise the syntax or range error quotes the run. |
| Parsing.Convert | bytesize.go:137-149 | The number and suffix convert if and only if the suffix is an alias in any case and the number converts, to the number times the unit's multiplier; an unknown suffix is refused with that suffix. |
| Parsing.Parsed | bytesize.go:117-151 | What `Parse` returns, as a function of its input: the trimmed input is split at its first non-digit and converted; stated by `Parsing.ParsedAccepts`, `Parsing.ParsedOnlyAccepts` and `Parsing.ParsedNoSuffix`. |
| Parsing.FirstNonDigit | bytesize.go:121-129 | The scan position: everything before it is a digit, and the character at it, if any, is not. |
| Parsing.FirstNonDigitAt | bytesize.go:121-129 | The scan stops at the first non-digit and nowhere else. |
| Parsing.Split | bytesize.go:121-134 | The split is missing exactly when every character is a digit; when present, its number part is all digits. |
| Parsing.ParsedAt | bytesize.go:119-148 | With the first non-digit at i: no non-digit means `NoSuffix`; otherwise the result is the lookup and conversion of the trimmed prefix and suffix. |
| Parsing.Parse | bytesize.go:117-151 | The method returns the value `Parsed` gives with no error, or size 0 with exactly the error `Parsed` gives. |
| Parsing.SplitAccepts | bytesize.go:121-129 | Digits, optional spaces and an alias split into those digits and that alias. |
| Parsing.AliasEnds | bytesize.go:137 | An alias, in any case, is non-empty, starts with neither a digit nor a space, and does not end with a space. |
| Parsing.ParsedAccepts | bytesize.go:117-151 | Spaces, a non-empty run of digits, optional spaces, an alias in any case, then spaces, parse to the digits' value times the unit's multiplier. The exception is a number at or above the float64 overflow threshold, which gives the range error. |
| Parsing.ParsedOnlyAccepts | bytesize.go:117-151 | Conversely, every input that parses has that shape, and its value is its digits' value times its unit's multiplier. |
| Parsing.ParsedNoSuffix | bytesize.go:121-134 | The error is `NoSuffix` if and only if the trimmed input is all digits, the empty input included; its text is then "Unrecognized size suffix". |
| Parsing.SuffixCut | bytesize.go:119-129 | Spaces, digits, spaces, a suffix that does not start with a digit (unless digits and spaces come before it), then spaces: the scan of the trimmed input stops right after the digits, and the trimmed rest is the suffix. |
| Parsing.ParsedUnknownSuffix | bytesize.go:119-141 | For any input of that shape, spaces around and between the parts allowed, whatever follows the digit run is the suffix, taken whole; if it is no alias, the input is refused with that suffix and the text "Unrecognized size suffix " followed by it. |
| Parsing.NotAnAlias | bytesize.go:137 | A text containing a character that is no letter after upper-casing is not an alias. |
| Parsing.ParsedNoNumber | bytesize.go:119-146 | A valid alias with no digits before it, with any spaces around it, gives `ParseFloat`'s syntax error on the empty number, with the text `strconv.ParseFloat: parsing "": invalid syntax`. |
| Parsing.OverflowBelowPow10 | bytesize.go:143-146 | The float64 overflow threshold is below 10^309. |
| Parsing.ParsedOverflow | bytesize.go:143-146 | A number of 310 or more digits without a leading zero gives the range error, whatever its valid unit. |
| Parsing.OverflowShape | conversion_test.go:7-12 | The overflow test input has 310 digits, a leading 1 and the unit B. |
| Parsing.ParsedOverflowExample | conversion_test.go:7-12 | The 310-digit overflow test input is refused with the range error. |
| Parsing.ParsedRoundTrip | bytesize.go:117-151 | The decimal numeral of any n below the overflow threshold, followed by any alias of u, parses to n times u's multiplier. |
| Parsing.ParsedOneByte | conversion_test.go:98-102 | "1B" and "1B " parse to one byte. |
| Parsing.ParsedSpacedByte | conversion_test.go:99-103 | "1 B" and " 1 B " parse to one byte. |
| Parsing.ParsedLongName | conversion_test.go:100 | "1 byte" parses to one byte. |
| Parsing.ParsedLongPlural | conversion_test.go:101 | "2 bytes" parses to two bytes. |
| Parsing.ParsedTwoNumbers | conversion_test.go:106 | "1KB 1023B" is refused with the suffix "KB 1023B". |
| Parsing.ParsedFraction | bytesize.go:121-141 | "1.5MB" is refused with the suffix ".5MB": the decimal point ends the number. |
| Parsing.ParsedSigned | bytesize.go:121-141 | "-5 MB" is refused with the whole input as the suffix. |
| Parsing.EmptyNumberMessage | bytesize.go:143-145 | The syntax error on the empty number reads `strconv.ParseFloat: parsing "": invalid syntax`. |
| Parsing.ParsedSecondNumber | bytesize.go:121-141 | "1 2KB" is refused with the suffix "2KB": the space ends the number and the rest is taken whole. |
| Parsing.ParsedDigitsOnly | conversion_test.go:107 | "1" is refused with "Unrecognized size suffix". |
| Parsing.ParsedUnitOnly | bytesize.go:143-146 | "KB" gives the syntax error on the empty number. |
| Formatting.Scaled | bytesize.go:177 | The number shown for b in unit u, `b/u`, times u's multiplier gives back b. |
| Formatting.ShowsPlural | bytesize.go:177-178 | The plural rule of a scaled unit: the rendered number, trimmed and read back, is above 0 and not 1. |
| Formatting.Label | bytesize.go:175-183 | The label, short or long, singular or plural, looks up, upper-cased, to the unit it names. |
| Formatting.Format | bytesize.go:159-276 | Whenever the unit is known or chosen, the result is the rendered scaled number followed by a label that looks up to that unit. |
| Formatting.ChooseUnit | bytesize.go:185-274 | The chosen unit is B or has a multiplier at most b, and every larger unit's multiplier exceeds b. |
| Formatting.ChooseUnitExact | bytesize.go:185-274 | The switch picks u if and only if b reaches u's multiplier (or u is B) and stays below 1024 times it (or u is YB). |
| Formatting.ScaledRange | bytesize.go:185-274 | For b of at least one byte, the number shown lies in [1, 1024), except under YB, where it is only at least 1. |
| Formatting.ChooseUnitMonotone | bytesize.go:185-274 | A larger size never gets a smaller unit. |
| Formatting.ChooseUnitOfMult | bytesize.go:185-274 | Each unit's multiplier is shown in that unit, as the number 1. |
| Formatting.FormatUnknownUnit | bytesize.go:170-174 | An unknown unit name gives exactly "Unrecognized unit: " followed by the name, whatever the size. |
| Formatting.FormatExplicit | bytesize.go:170-183 | Any alias of u, in any case, renders b/u followed by u's short name, or by its long name with the plural rule applied to the rendered value, whatever b's magnitude. |
| Formatting.FormatCaseInsensitive | bytesize.go:171 | For a known unit name, or none, the upper-cased name gives the same result as the original. |
| Formatting.FormatAutoIsExplicit | bytesize.go:185-274 | Without a unit, the result is what naming the chosen unit would give, except for long byte labels. |
| Formatting.FormatNonPositiveSingular | bytesize.go:267-274 | A size of zero or less is shown in bytes with the singular "byte". |
| Formatting.FormatBytesPlural | bytesize.go:267-274 | Automatically chosen bytes: one byte is singular, and every other positive size below a kilobyte is plural. |
| Formatting.FormatOneOfUnit | bytesize.go:185-265 | Above bytes, a unit's multiplier is shown with the singular long name, when the rendering of 1 reads back as 1. |
| Formatting.FormatAutoLongPlural | bytesize.go:185-265 | An automatically chosen unit above bytes gets the long plural label whenever the rendering reads back plural. |
| Formatting.FormatTwoOfUnit | bytesize.go:185-265 | Twice a unit's multiplier is shown with the plural long name, when the rendering of 2 reads back as 2. |
| Formatting.FormatTableByte | conversion_test.go:19 | Explicit unit "byte" in short form: 1 is shown as the rendering of 1 followed by "B". |
| Formatting.FormatTableKilo | conversion_test.go:20 | Lower-case "kb": 1024 is shown as the rendering of 1 followed by "KB". |
| Formatting.FormatTableGiga | conversion_test.go:21-22 | Explicit "GB" keeps gigabytes: a terabyte is shown as 1024 GB and a petabyte as 1048576 GB. |
| Formatting.FormatTablePotato | conversion_test.go:23 | "potato" gives "Unrecognized unit: potato". |
| Formatting.Config.constructor | bytesize.go:105-112 | The defaults are format "%.2f" and short labels. |
| Formatting.Config.String | bytesize.go:165-167 | `String` uses the chosen unit with the current format. With short labels it is the rendered scaled number followed by the unit's short name. Except for long byte labels, it equals naming that unit explicitly. |
| Formatting.StringDefaultOfMult | conversion_test.go:40-47 | With the defaults, each unit's multiplier is shown as the rendering of 1 followed by its short name. |
| Formatting.StringDefaultBelowKilo | conversion_test.go:41 | With the defaults, 1023 is shown in bytes. |
| Formatting.ChooseUnitArithmeticExamples | conversion_test.go:162-164 | 1024+1024 is shown as 2 KB; 2^30+10·2^20 as 1.009765625 GB; 2^30−2^29 as 512 MB. |

## Left out

- Number rendering and reading back are not modelled.
  - `fmt.Sprintf(format, q)` and `strconv.ParseFloat` of its trimmed output are the `render` and `readBack` fields of a `Printer` parameter.
  - The code formats with `format + label` as one template. The model renders `format` and then appends the label. It assumes `fmt.Sprintf(format + label, q) == fmt.Sprintf(format, q) + label`, which holds when `format` consumes its one operand with one complete verb. It fails for a format with no verb (Go puts the `%!(EXTRA …)` note after the label), for a format ending in "%" (it fuses with the label: `"%" + "byte"` is the `%b` verb followed by "yte"). For `%v`, `%s`, `%x`, `%X` and `%q`, `fmt` renders the number through the `ByteSize`'s own `String()`, so the rendering depends on the package variables, and `String()` never returns when `Format` is such a verb.
- Formatting.FormatOneOfUnit and Formatting.FormatTwoOfUnit assume that the rendering of 1 and 2 reads back as 1 and 2. This holds for the test's "%.0f ", but the model cannot derive it from a format string.
- The float64 special values are not represented: a size is never +Inf, -Inf or NaN. In the code an overflowing product is +Inf, shown through the YB branch ("+InfYB" with "%.2f"), and a NaN such as Inf − Inf fails every comparison and is shown in bytes ("NaNB").
- Float64 rounding is not modelled. Sizes, scaled quantities and parsed values are exact reals. In the code, a parsed value is rounded to float64, multiplied by the unit in float64, and divided in float64 when scaled.
- Parsing.Parse and Parsing.Parsed do not model an overflowing product. A number below the float64 threshold times a large unit (for example 10^300 YB) becomes +Inf in the code, with no error. The model returns the exact product.
- Parsing.ParseFloat models `strconv.ParseFloat` only on runs of ASCII digits, which is all the digit scan ever passes to it. Signs, decimal points, exponents and hexadecimal input are not modelled.
- `unicode.IsDigit` and `strings.ToUpper` are ASCII only.
  - Other Unicode decimal digits pass the Go scan and then fail in `ParseFloat`.
  - Non-ASCII letters whose upper case is ASCII (the dotless ı, the long ſ) could match an alias in Go.
  - Invalid UTF-8 is not modelled.
- `Formatting.New` is the identity conversion `ByteSize(s)` (`bytesize.go:155`), with nothing to state; the example lemmas apply it as the tests do.
- `Set` and `Get` are not part of this model: they are called by the tests but their definitions are not among the modelled sources.
- Arithmetic on `ByteSize` is Go's float addition and subtraction. Only unit selection on its results is modelled (`Formatting.ChooseUnitArithmeticExamples`).
- The package variables are a `Config` object. Concurrent access to them (a data race in Go) is not modelled.
- The parse examples "1023B", "1024B" and "1024 GB" are not stated literally. They are instances of `Parsing.ParsedAccepts` (and, for those without a space, `Parsing.ParsedRoundTrip`), because `Units.Next` gives `1024 * Mult(GB) == Mult(TB)`.
- No law `Parse(b.String()) == b` is stated, because it does not hold. The default "%.2f" always prints a '.', where the digit scan stops (`Parsing.ParsedFraction` shows such a refusal).
