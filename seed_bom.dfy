/** seed_bom_drom_tsv.py (the copy under app/ and the one at the repository root are the same
    file): seeding `main_bom_storage` from a tab-separated export. Each sheet row becomes a
    payload of attribute values, numbers read by `coerce_number`, notes about odd numbers
    merged into the notes, and the payload is written to the part with that part number, a
    new one or the one already stored. */
module SeedBom {
  import opened Wrappers
  import opened PyText
  import opened Numerals
  import MigrateExcel
  import Models

  // ---------------------------------------------------------------------------------------
  // coerce_number

  /** A payload value: stripped text, or the `int` or `float` that `coerce_number` gave. */
  datatype Datum = TextDatum(s: string) | IntDatum(i: int) | FloatDatum(x: real)

  /** `str(v)` of a payload value. How a float prints is `floatRepr`. */
  function DatumText(v: Datum, floatRepr: real -> string): string {
    match v
    case TextDatum(s) => s
    case IntDatum(i) => IntToDecimal(i)
    case FloatDatum(x) => floatRepr(x)
  }

  /** The texts `coerce_number` reads as no value (seed_bom_drom_tsv.py:52). */
  const NullTexts: set<string> := {"", "#VALUE!", "NA", "N/A", "None", "-"}

  lemma NullTextsHaveNoDigit()
    ensures forall t :: t in NullTexts ==> MigrateExcel.NoDigit(t)
  {
  }

  /** The optional `-` at the start of `s`, and the text after it. */
  function DashPart(s: string): (r: (string, string))
    ensures (r.0 == "" || r.0 == "-") && r.0 + r.1 == s
  {
    if s != [] && s[0] == '-' then
      assert s == [s[0]] + s[1..];
      ("-", s[1..])
    else ("", s)
  }

  /** The number `-?\d+(?:\.\d+)?` at the start of `s`, and the text after it. */
  function LeadingDecimal(s: string): (r: Option<(Numeral, string)>)
    ensures r.Some? ==> && WellFormed(r.value.0) && r.value.0.exponent.None?
                        && (r.value.0.sign == "" || r.value.0.sign == "-")
  {
    var (sign, s1) := DashPart(s);
    var (whole, s2) := DigitRun(s1);
    if whole == [] then None
    else
      var (frac, s3) := FracPart(s2);
      Some((Numeral(sign, whole, frac, None), s3))
  }

  /** No closing parenthesis in `s`. */
  predicate NoCloseParen(s: string) {
    forall k :: 0 <= k < |s| ==> s[k] != ')'
  }

  /** `\s*\(([^)]+)\)\s*$` at the start of `s`: the text in the parentheses. */
  function ParenTail(s: string): (r: Option<string>)
    ensures r.Some? ==> r.value != [] && NoCloseParen(r.value)
  {
    var u := s[SpaceRunEnd(s, 0)..];
    var v := u[..SpaceRunStart(u, |u|)];
    if |v| >= 3 && v[0] == '(' && v[|v| - 1] == ')' && NoCloseParen(v[1..|v| - 1]) then
      Some(v[1..|v| - 1])
    else None
  }

  /** `re.match(r"^\s*(-?\d+(?:\.\d+)?)\s*\(([^)]+)\)\s*$", s)`: the number and the text in
      the parentheses, when `s` is a number followed by a remark in parentheses. */
  function ParenForm(s: string): (r: Option<(Numeral, string)>)
    ensures r.Some? ==> && WellFormed(r.value.0) && r.value.0.exponent.None?
                        && (r.value.0.sign == "" || r.value.0.sign == "-")
                        && r.value.1 != [] && NoCloseParen(r.value.1)
  {
    match LeadingDecimal(s[SpaceRunEnd(s, 0)..])
    case None => None
    case Some((n, after)) =>
      match ParenTail(after)
      case None => None
      case Some(extra) => Some((n, extra))
  }

  /** Python's `float(t)`: text that is, once stripped, exactly a decimal numeral has that
      numeral's value; any other text goes to `parseFloat`, which is `None` where `float()`
      raises. */
  function ParseFloat(t: string, parseFloat: string -> Option<real>): Option<real> {
    match PrefixMatch(Strip(t))
    case Some((n, rest)) => if rest == [] then Some(Value(n)) else parseFloat(t)
    case None => parseFloat(t)
  }

  /** The note for a number with a remark in parentheses (seed_bom_drom_tsv.py:58). */
  function ParsedNote(s: string, base: real, extra: string, floatRepr: real -> string): string {
    "Parsed '" + s + "': stored " + floatRepr(base) + ", extra='" + extra + "'"
  }

  /** The note for text that is no number (seed_bom_drom_tsv.py:69). */
  function KeptNote(s: string): string {
    "Kept as text: " + s
  }

  /** `int(f) if f.is_integer() else f`. */
  function Collapsed(f: real): (r: Datum)
    ensures r.IntDatum? <==> f.Floor as real == f
    ensures r.IntDatum? ==> r.i as real == f
    ensures r.FloatDatum? ==> r.x == f
  {
    if f.Floor as real == f then IntDatum(f.Floor) else FloatDatum(f)
  }

  /** `coerce_number(v, note_list)` (seed_bom_drom_tsv.py:49-70): the value, and the note it
      appends to `note_list`, if any. */
  function CoerceNumber(v: MigrateExcel.Cell, floatRepr: real -> string, parseFloat: string -> Option<real>)
    : (r: (Option<Datum>, Option<string>))
    ensures r.0.Some? ==> !r.0.value.TextDatum?
    ensures r.1.Some? ==> r.0.None? || r.0.value.FloatDatum?
  {
    match v
    case Null => (None, None)
    case NaN => (None, None)
    case Str(s) => CoerceText(Strip(s), floatRepr, parseFloat)
    case _ => CoerceText(Strip(MigrateExcel.CellText(v, floatRepr)), floatRepr, parseFloat)
  }

  /** `coerce_number` after `str(v).strip()`. */
  function CoerceText(s: string, floatRepr: real -> string, parseFloat: string -> Option<real>)
    : (r: (Option<Datum>, Option<string>))
    ensures r.0.Some? ==> !r.0.value.TextDatum?
    ensures r.1.Some? ==> r.0.None? || r.0.value.FloatDatum?
  {
    if s in NullTexts then (None, None)
    else
      match ParenForm(s)
      case Some((n, extra)) => (Some(FloatDatum(Value(n))), Some(ParsedNote(s, Value(n), extra, floatRepr)))
      case None =>
        match ParseFloat(RemoveChar(s, ','), parseFloat)
        case Some(f) => (Some(Collapsed(f)), None)
        case None => (None, Some(KeptNote(s)))
  }

  /** A missing cell, a NaN, and text that strips to one of the null texts are no value, and
      no note is added. */
  lemma CoerceNullTexts(v: MigrateExcel.Cell, floatRepr: real -> string, parseFloat: string -> Option<real>)
    requires v.Null? || v.NaN? || Strip(MigrateExcel.CellText(v, floatRepr)) in NullTexts
    ensures CoerceNumber(v, floatRepr, parseFloat) == (None, None)
  {
  }

  /** The end of a run of whitespace that stops at `j`. */
  lemma {:induction false} SpaceRunEndAt(s: string, i: nat, j: nat)
    requires i <= j < |s| && !IsSpace(s[j])
    requires forall k :: i <= k < j ==> IsSpace(s[k])
    ensures SpaceRunEnd(s, i) == j
    decreases j - i
  {
    if i < j {
      SpaceRunEndAt(s, i + 1, j);
    }
  }

  /** A sign followed by a digit is the sign `DashPart` takes. */
  lemma DashPartOf(sign: string, rest: string)
    requires (sign == "" || sign == "-") && rest != [] && IsDigit(rest[0])
    ensures DashPart(sign + rest) == (sign, rest)
  {
    if sign == "-" {
      assert (sign + rest)[1..] == rest;
    } else {
      assert sign + rest == rest;
    }
  }

  /** A number without exponent, followed by text that does not continue it, is the number
      `LeadingDecimal` takes. */
  lemma LeadingDecimalOf(n: Numeral, rest: string)
    requires WellFormed(n) && n.exponent.None? && (n.sign == "" || n.sign == "-")
    requires rest == [] || !IsDigit(rest[0])
    requires n.frac == [] ==> !StartsFraction(rest)
    ensures LeadingDecimal(Numerals.Text(n) + rest) == Some((n, rest))
  {
    var afterWhole := FracText(n.frac) + rest;
    var afterSign := n.whole + afterWhole;
    Reassociate(n.sign, n.whole, FracText(n.frac), [], rest);
    assert [] + rest == rest;
    assert Numerals.Text(n) + rest == n.sign + afterSign;
    assert afterSign[0] == n.whole[0];
    DashPartOf(n.sign, afterSign);
    assert afterWhole == [] || !IsDigit(afterWhole[0]) by {
      if n.frac != [] {
        assert afterWhole[0] == '.';
      }
    }
    DigitRunOf(n.whole, afterWhole);
    FracPartOf(n.frac, rest);
  }

  /** Text that does not start with whitespace has no leading whitespace to skip. */
  lemma NoLeadingSpace(s: string)
    requires s != [] && !IsSpace(s[0])
    ensures s[SpaceRunEnd(s, 0)..] == s
  {
  }

  /** Whitespace, then a remark in parentheses, starts with neither a digit nor a point. */
  lemma ParenAfterSpace(sp: string, extra: string)
    requires Blank(sp)
    ensures var u := sp + "(" + extra + ")"; u != [] && !IsDigit(u[0]) && u[0] != '.'
  {
    var u := sp + "(" + extra + ")";
    if sp != [] {
      assert u[0] == sp[0];
    } else {
      assert u[0] == '(';
    }
  }

  /** A remark in parentheses, with nothing after it, is what `ParenTail` wants once the
      leading whitespace is skipped. */
  lemma ParenTailOfParen(extra: string)
    requires extra != [] && NoCloseParen(extra)
    ensures ParenTail("(" + extra + ")") == Some(extra)
  {
    var w := "(" + extra + ")";
    assert w[0] == '(' && w[|w| - 1] == ')';
    NoLeadingSpace(w);
    assert w[0..] == w;
    assert w[..|w|] == w;
    assert w[1..|w| - 1] == extra;
  }

  /** Whitespace before the parenthesis is skipped: `ParenTail` of the longer text is that of
      the shorter. */
  lemma ParenTailSkipsSpace(sp: string, w: string)
    requires Blank(sp) && w != [] && !IsSpace(w[0])
    ensures ParenTail(sp + w) == ParenTail(w)
  {
    var u := sp + w;
    assert u[|sp|] == w[0];
    SpaceRunEndAt(u, 0, |sp|);
    NoLeadingSpace(w);
    assert u[|sp|..] == w;
  }

  /** Whitespace, then a remark in parentheses: `ParenTail` gives the remark. */
  lemma ParenTailOf(sp: string, extra: string)
    requires Blank(sp) && extra != [] && NoCloseParen(extra)
    ensures ParenTail(sp + "(" + extra + ")") == Some(extra)
  {
    var w := "(" + extra + ")";
    assert sp + "(" + extra + ")" == sp + w;
    assert w[0] == '(';
    ParenTailSkipsSpace(sp, w);
    ParenTailOfParen(extra);
  }

  /** A numeral starts with its sign or its first whole digit. */
  lemma NumeralStart(n: Numeral, u: string)
    requires WellFormed(n)
    ensures var s := Numerals.Text(n) + u; s != [] && !IsSpace(s[0])
  {
    var s := Numerals.Text(n) + u;
    assert s[0] == (if n.sign != "" then n.sign[0] else n.whole[0]);
  }

  /** The `"<num>(<extra>)"` form, with any whitespace before the parenthesis, is recognised:
      the number and the remark come back. */
  lemma ParenFormOf(n: Numeral, sp: string, extra: string)
    requires WellFormed(n) && n.exponent.None? && (n.sign == "" || n.sign == "-")
    requires Blank(sp) && extra != [] && NoCloseParen(extra)
    ensures ParenForm(Numerals.Text(n) + sp + "(" + extra + ")") == Some((n, extra))
  {
    var u := sp + "(" + extra + ")";
    var s := Numerals.Text(n) + u;
    assert s == Numerals.Text(n) + sp + "(" + extra + ")";
    ParenAfterSpace(sp, extra);
    LeadingDecimalOf(n, u);
    NumeralStart(n, u);
    NoLeadingSpace(s);
    ParenTailOf(sp, extra);
  }

  /** `coerce_number` of a text cell is `coerce_number` of the stripped text. */
  lemma CoerceOfStr(s: string, floatRepr: real -> string, parseFloat: string -> Option<real>)
    ensures CoerceNumber(MigrateExcel.Cell.Str(s), floatRepr, parseFloat) == CoerceText(Strip(s), floatRepr, parseFloat)
  {
  }

  /** A text with a digit in it is none of the null texts. */
  lemma NotNullText(s: string, d: nat)
    requires d < |s| && IsDigit(s[d])
    ensures s !in NullTexts
  {
    NullTextsHaveNoDigit();
  }

  /** The branch for a number with a remark in parentheses. */
  lemma CoerceTextParen(t: string, n: Numeral, extra: string,
                        floatRepr: real -> string, parseFloat: string -> Option<real>)
    requires t !in NullTexts && ParenForm(t) == Some((n, extra))
    ensures CoerceText(t, floatRepr, parseFloat)
              == (Some(FloatDatum(Value(n))), Some(ParsedNote(t, Value(n), extra, floatRepr)))
  {
  }

  /** The branch for text `float()` reads once its commas are removed. */
  lemma CoerceTextFloat(t: string, f: real, floatRepr: real -> string, parseFloat: string -> Option<real>)
    requires t !in NullTexts && ParenForm(t).None? && ParseFloat(RemoveChar(t, ','), parseFloat) == Some(f)
    ensures CoerceText(t, floatRepr, parseFloat) == (Some(Collapsed(f)), None)
  {
  }

  /** The branch for text that is kept as text. */
  lemma CoerceTextKept(t: string, floatRepr: real -> string, parseFloat: string -> Option<real>)
    requires t !in NullTexts && ParenForm(t).None? && ParseFloat(RemoveChar(t, ','), parseFloat).None?
    ensures CoerceText(t, floatRepr, parseFloat) == (None, Some(KeptNote(t)))
  {
  }

  /** A number followed by a remark in parentheses has no whitespace at its ends. */
  lemma ParenTextStripped(n: Numeral, sp: string, extra: string)
    requires WellFormed(n)
    ensures var s := Numerals.Text(n) + sp + "(" + extra + ")"; Strip(s) == s && |n.sign| < |s| && IsDigit(s[|n.sign|])
  {
    var s := Numerals.Text(n) + sp + "(" + extra + ")";
    assert s[0] == (if n.sign == "-" then '-' else if n.sign == "+" then '+' else n.whole[0]);
    assert s[|s| - 1] == ')';
    assert s[|n.sign|] == n.whole[0];
    StripOfStripped(s);
  }

  /** Text that is a number followed by a remark in parentheses reads as the number, as a
      float, and exactly one note records the remark. */
  lemma CoerceParenForm(n: Numeral, sp: string, extra: string,
                        floatRepr: real -> string, parseFloat: string -> Option<real>)
    requires WellFormed(n) && n.exponent.None? && (n.sign == "" || n.sign == "-")
    requires Blank(sp) && extra != [] && NoCloseParen(extra)
    ensures var s := Numerals.Text(n) + sp + "(" + extra + ")";
            CoerceNumber(MigrateExcel.Cell.Str(s), floatRepr, parseFloat)
              == (Some(FloatDatum(Value(n))), Some(ParsedNote(s, Value(n), extra, floatRepr)))
  {
    var s := Numerals.Text(n) + sp + "(" + extra + ")";
    ParenFormOf(n, sp, extra);
    ParenTextStripped(n, sp, extra);
    NotNullText(s, |n.sign|);
    CoerceOfStr(s, floatRepr, parseFloat);
    CoerceTextParen(s, n, extra, floatRepr, parseFloat);
  }

  /** A sign, digit, point or exponent marker: the characters of a numeral. */
  predicate NumeralChar(c: char) {
    IsDigit(c) || c == '+' || c == '-' || c == '.' || c == 'e' || c == 'E'
  }

  predicate NumeralChars(s: string) {
    forall k :: 0 <= k < |s| ==> NumeralChar(s[k])
  }

  lemma NumeralCharsOfText(n: Numeral)
    requires WellFormed(n)
    ensures NumeralChars(Numerals.Text(n))
  {
    var f, x := FracText(n.frac), OptExponentText(n.exponent);
    assert NumeralChars(f) by {
      if n.frac != [] {
        forall k | 0 <= k < |f| ensures NumeralChar(f[k]) {
          if k > 0 {
            assert f[k] == n.frac[k - 1];
          }
        }
      }
    }
    assert NumeralChars(x) by {
      if n.exponent.Some? {
        var e := n.exponent.value;
        forall k | 0 <= k < |x| ensures NumeralChar(x[k]) {
          if k > |e.sign| {
            assert x[k] == e.digits[k - 1 - |e.sign|];
          } else if k > 0 {
            assert x[k] == e.sign[k - 1];
          }
        }
      }
    }
    var t := Numerals.Text(n);
    forall k | 0 <= k < |t| ensures NumeralChar(t[k]) {
      if k < |n.sign| {
        assert t[k] == n.sign[k];
      } else if k < |n.sign| + |n.whole| {
        assert t[k] == n.whole[k - |n.sign|];
      } else if k < |n.sign| + |n.whole| + |f| {
        assert t[k] == f[k - |n.sign| - |n.whole|];
      } else {
        assert t[k] == x[k - |n.sign| - |n.whole| - |f|];
      }
    }
  }

  /** A text without whitespace in it is stripped already. */
  lemma StripOfSpaceless(s: string)
    requires forall k :: 0 <= k < |s| ==> !IsSpace(s[k])
    ensures Strip(s) == s
  {
    StripOfStripped(s);
  }

  /** `float()` reads a numeral as its value. */
  lemma ParseFloatOfText(n: Numeral, parseFloat: string -> Option<real>)
    requires WellFormed(n)
    ensures ParseFloat(Numerals.Text(n), parseFloat) == Some(Value(n))
  {
    var t := Numerals.Text(n);
    NumeralCharsOfText(n);
    StripOfSpaceless(t);
    assert t + [] == t;
    PrefixMatchOfText(n, []);
  }

  /** A numeral with commas in it is made of the numeral's characters and commas, and has
      the numeral's first whole digit in it. */
  lemma CommaNumeralChars(s: string, n: Numeral)
    requires WellFormed(n) && RemoveChar(s, ',') == Numerals.Text(n)
    ensures forall k :: 0 <= k < |s| ==> s[k] == ',' || NumeralChar(s[k])
    ensures n.whole[0] in s
  {
    var t := Numerals.Text(n);
    RemoveCharMembers(s, ',');
    NumeralCharsOfText(n);
    assert t[|n.sign|] == n.whole[0];
    assert t[|n.sign|] in t;
    forall k | 0 <= k < |s| && s[k] != ',' ensures NumeralChar(s[k]) {
      assert s[k] in t;
    }
  }

  /** A closing parenthesis that `ParenTail` requires is in its input. */
  lemma ParenTailHasParen(s: string)
    requires ParenTail(s).Some?
    ensures ')' in s
  {
    var i := SpaceRunEnd(s, 0);
    var u := s[i..];
    var v := u[..SpaceRunStart(u, |u|)];
    assert v[|v| - 1] == s[i + |v| - 1];
  }

  /** The text after the number `LeadingDecimal` takes is the end of its input. */
  lemma LeadingDecimalSuffix(s: string)
    requires LeadingDecimal(s).Some?
    ensures forall c :: c in LeadingDecimal(s).value.1 ==> c in s
  {
    var (sign, s1) := DashPart(s);
    var (whole, s2) := DigitRun(s1);
    var (frac, s3) := FracPart(s2);
    assert s3 == LeadingDecimal(s).value.1;
    assert s == sign + (whole + (FracText(frac) + s3));
  }

  /** A text `ParenForm` recognises has a closing parenthesis. */
  lemma ParenFormHasParen(s: string)
    requires ParenForm(s).Some?
    ensures ')' in s
  {
    var t := s[SpaceRunEnd(s, 0)..];
    var after := LeadingDecimal(t).value.1;
    ParenTailHasParen(after);
    LeadingDecimalSuffix(t);
    assert ')' in t;
  }

  /** A text without a closing parenthesis is no number with a remark in parentheses. */
  lemma NoParenForm(s: string)
    requires ')' !in s
    ensures ParenForm(s).None?
  {
    if ParenForm(s).Some? {
      ParenFormHasParen(s);
      assert false;
    }
  }

  /** A numeral with commas in it has no whitespace at its ends, is no null text and has no
      remark in parentheses. */
  lemma CommaNumeralShape(s: string, n: Numeral)
    requires WellFormed(n) && RemoveChar(s, ',') == Numerals.Text(n)
    ensures Strip(s) == s && s !in NullTexts && ParenForm(s).None?
  {
    CommaNumeralChars(s, n);
    StripOfSpaceless(s);
    var d :| 0 <= d < |s| && s[d] == n.whole[0];
    NotNullText(s, d);
    NoParenForm(s);
  }

  /** Text that, without its commas, is a numeral reads as that numeral's value, collapsed to
      an `int` when it is whole, and adds no note: the thousands separators are ignored. */
  lemma CoerceReadsNumeral(s: string, n: Numeral, floatRepr: real -> string, parseFloat: string -> Option<real>)
    requires WellFormed(n) && RemoveChar(s, ',') == Numerals.Text(n)
    ensures CoerceNumber(MigrateExcel.Cell.Str(s), floatRepr, parseFloat) == (Some(Collapsed(Value(n))), None)
  {
    CommaNumeralShape(s, n);
    ParseFloatOfText(n, parseFloat);
    CoerceOfStr(s, floatRepr, parseFloat);
    CoerceTextFloat(s, Value(n), floatRepr, parseFloat);
  }

  /** A whole `float` collapses to the `int` it equals. */
  lemma CollapsedOfInt(f: real, i: int)
    requires f == i as real
    ensures Collapsed(f) == IntDatum(i)
  {
  }

  /** A numeral without fraction or exponent collapses to an `int`. */
  lemma CollapsedInteger(n: Numeral)
    requires WellFormed(n) && n.frac == [] && n.exponent.None?
    ensures Collapsed(Value(n))
              == IntDatum(if n.sign == "-" then -(DigitsValue(n.whole) as int) else DigitsValue(n.whole))
  {
    ValueOfInteger(n);
    var i: int := if n.sign == "-" then -(DigitsValue(n.whole) as int) else DigitsValue(n.whole);
    CollapsedOfInt(Value(n), i);
  }

  /** A whole number, with or without thousands separators, becomes an `int`. */
  lemma CoerceReadsInteger(s: string, n: Numeral, floatRepr: real -> string, parseFloat: string -> Option<real>)
    requires WellFormed(n) && n.frac == [] && n.exponent.None? && RemoveChar(s, ',') == Numerals.Text(n)
    ensures CoerceNumber(MigrateExcel.Cell.Str(s), floatRepr, parseFloat)
              == (Some(IntDatum(if n.sign == "-" then -(DigitsValue(n.whole) as int) else DigitsValue(n.whole))), None)
  {
    CoerceReadsNumeral(s, n, floatRepr, parseFloat);
    CollapsedInteger(n);
  }

  /** Text that is no null text, no number with a remark and that `float()` refuses is no
      value, and the note says it was kept as text. */
  lemma CoerceKeptAsText(s: string, floatRepr: real -> string, parseFloat: string -> Option<real>)
    requires Strip(s) !in NullTexts && ParenForm(Strip(s)).None?
    requires ParseFloat(RemoveChar(Strip(s), ','), parseFloat).None?
    ensures CoerceNumber(MigrateExcel.Cell.Str(s), floatRepr, parseFloat) == (None, Some(KeptNote(Strip(s))))
  {
    CoerceOfStr(s, floatRepr, parseFloat);
    CoerceTextKept(Strip(s), floatRepr, parseFloat);
  }

  // ---------------------------------------------------------------------------------------
  // The field map and the sheet

  /** FIELD_MAP (seed_bom_drom_tsv.py:16-38) in its order: a sheet column and the attribute it
      fills. */
  const FieldMap: seq<(string, string)> := [
    ("Part Number", "part_number"),
    ("Description", "part_name"),
    ("Supplier", "supplier"),
    ("Component", "component"),
    ("Qty per LRV", "qty_per_lrv"),
    ("No. of car", "num_cars"),
    ("Total", "qty_total"),
    ("Qty on Site", "qty_on_site"),
    ("Shipped out of store", "qty_shipped_out"),
    ("Qty should be remaining", "qty_should_be_remaining"),
    ("Qty actually remaining", "qty_current_stock"),
    ("Notes", "notes"),
    ("More needed for 50", "more_needed_for_50"),
    ("Back Order \nQty", "back_order_qty"),
    ("Back Order Qty", "back_order_qty"),
    ("Order Status", "order_status"),
    ("Stock for Number of Trains", "stock_for_num_trains"),
    ("No. of Trains Next Delivery", "num_trains_next_delivery"),
    ("Qty Required for # More Trains", "qty_required_more_trains"),
    ("Materials Shipped out for No. of Trains", "materials_shipped_for_trains"),
    ("Type", "item_type")
  ]

  /** NUMERIC_COLS (seed_bom_drom_tsv.py:40-45): the attributes read by `coerce_number`. */
  const NumericAttrs: set<string> := {
    "qty_per_lrv", "num_cars", "qty_total", "qty_on_site", "qty_shipped_out",
    "qty_should_be_remaining", "qty_current_stock", "more_needed_for_50",
    "back_order_qty", "stock_for_num_trains", "num_trains_next_delivery",
    "qty_required_more_trains", "materials_shipped_for_trains"
  }

  /** PKEY (seed_bom_drom_tsv.py:47). */
  const PKey: string := "part_number"

  /** The attributes of the field map that `MainBOMStorage` has, as a column or as a property
      (app/models.py:10-83): `hasattr` holds for these and for no other attribute it fills. */
  const ModelAttrs: set<string> := {
    "part_number", "part_name", "supplier", "component", "qty_per_lrv", "qty_on_site",
    "qty_shipped_out", "qty_current_stock", "notes", "back_order_qty"
  }

  /** The read-only properties among them (app/models.py:43-66, 80-83). */
  const AliasAttrs: set<string> := {
    "component", "qty_per_lrv", "qty_on_site", "qty_shipped_out", "qty_current_stock", "back_order_qty"
  }

  /** The header clean-up of seed_bom_drom_tsv.py:88: non-breaking spaces, carriage returns and
      newlines become spaces, then the name is stripped. */
  function NormalizeColumn(c: string): string {
    Strip(ReplaceChar(ReplaceChar(ReplaceChar(c, MigrateExcel.Nbsp, ' '), '\r', ' '), '\n', ' '))
  }

  function NormalizeColumns(header: seq<string>): (r: seq<string>)
    ensures |r| == |header|
  {
    if header == [] then []
    else NormalizeColumns(header[..|header| - 1]) + [NormalizeColumn(header[|header| - 1])]
  }

  lemma {:induction false} NormalizeColumnsAt(header: seq<string>, k: nat)
    requires k < |header|
    ensures NormalizeColumns(header)[k] == NormalizeColumn(header[k])
  {
    if k < |header| - 1 {
      NormalizeColumnsAt(header[..|header| - 1], k);
    }
  }

  /** A normalised column name has no newline in it. */
  lemma NormalizedHasNoNewline(c: string)
    ensures '\n' !in NormalizeColumn(c)
  {
    var t := ReplaceChar(ReplaceChar(ReplaceChar(c, MigrateExcel.Nbsp, ' '), '\r', ' '), '\n', ' ');
    ReplaceCharSpec(ReplaceChar(ReplaceChar(c, MigrateExcel.Nbsp, ' '), '\r', ' '), '\n', ' ');
    StripTrims(t);
    var r := Strip(t);
    forall k | 0 <= k < |r| ensures r[k] != '\n' {
      assert r[k] == t[StripStart(t) + k];
    }
  }

  /** A name without a newline is not the field-map entry that has one. */
  lemma NotNewlineColumn(c: string)
    requires '\n' !in c
    ensures c != "Back Order \nQty"
  {
    assert "Back Order \nQty"[11] == '\n';
  }

  /** The field-map entry `"Back Order \nQty"` never matches: no normalised header has a
      newline, so the back-order quantity is read from `"Back Order Qty"` alone. */
  lemma NewlineColumnNeverPresent(header: seq<string>)
    ensures "Back Order \nQty" !in NormalizeColumns(header)
  {
    var cols := NormalizeColumns(header);
    forall k | 0 <= k < |cols| ensures cols[k] != "Back Order \nQty" {
      NormalizeColumnsAt(header, k);
      NormalizedHasNoNewline(header[k]);
      NotNewlineColumn(cols[k]);
    }
  }

  /** A sheet as `load_frame` reads it: its header line and its rows, every cell read as text
      and a missing cell as `""`. The cells are those after `fillna("")`: a cell that pandas
      reads as NA by default ("NA", "N/A", "NULL", "nan", "None", "#N/A", ...) is already
      `""` here. */
  datatype Frame = Frame(header: seq<string>, rows: seq<seq<string>>)

  /** `row[col]` for a column present: the model takes the cell under the first column of
      that name, and `""` past the end of a short row. Where two headers share a name, pandas
      gives a Series instead, which the model does not represent. */
  function CellOf(cols: seq<string>, cells: seq<string>, col: string): string
    requires col in cols
  {
    var i := MigrateExcel.FirstIndex(cols, col, 0).value;
    if i < |cells| then cells[i] else ""
  }

  /** `str(val).strip() if str(val).strip() != "" else None`. */
  function TextCell(s: string): (r: Option<Datum>)
    ensures r.Some? ==> r.value.TextDatum? && r.value.s != [] && Stripped(r.value.s)
  {
    var t := Strip(s);
    if t == "" then None else Some(TextDatum(t))
  }

  /** The value a cell gives attribute `attr` (seed_bom_drom_tsv.py:98-102), and the note
      `coerce_number` adds for it, if any. */
  function FieldValue(attr: string, cell: string, floatRepr: real -> string, parseFloat: string -> Option<real>)
    : (Option<Datum>, Option<string>)
  {
    if attr in NumericAttrs then CoerceNumber(MigrateExcel.Cell.Str(cell), floatRepr, parseFloat)
    else (TextCell(cell), None)
  }

  // ---------------------------------------------------------------------------------------
  // The payload dict

  /** A dict from attribute to value, as its pairs in insertion order. */
  type Payload = seq<(string, Option<Datum>)>

  /** Where `k` sits among the keys: the first position holding it. */
  function KeyIndex(p: Payload, k: string): (r: Option<nat>)
    ensures r.Some? ==> r.value < |p| && p[r.value].0 == k && forall i :: 0 <= i < r.value ==> p[i].0 != k
    ensures r.None? ==> forall i :: 0 <= i < |p| ==> p[i].0 != k
  {
    if p == [] then None
    else if p[0].0 == k then Some(0)
    else match KeyIndex(p[1..], k)
      case None => None
      case Some(i) => Some(i + 1)
  }

  /** `k in p`. */
  predicate HasKey(p: Payload, k: string) {
    exists i :: 0 <= i < |p| && p[i].0 == k
  }

  /** No key occurs twice. */
  predicate UniqueKeys(p: Payload) {
    forall i, j :: 0 <= i < j < |p| ==> p[i].0 != p[j].0
  }

  /** `p.get(k)`: a missing key reads as `None`. */
  function Get(p: Payload, k: string): Option<Datum> {
    match KeyIndex(p, k)
    case Some(i) => p[i].1
    case None => None
  }

  /** `p[k] = v`: a key already present keeps its place, a new one goes last. */
  function Put(p: Payload, k: string, v: Option<Datum>): (r: Payload)
    ensures |r| == |p| || |r| == |p| + 1
  {
    match KeyIndex(p, k)
    case Some(i) => p[i := (k, v)]
    case None => p + [(k, v)]
  }

  /** After `p[k] = v`, `k` reads `v`. */
  lemma PutGetSame(p: Payload, k: string, v: Option<Datum>)
    ensures Get(Put(p, k, v), k) == v
  {
    var q := Put(p, k, v);
    match KeyIndex(p, k)
    case Some(i) =>
      assert forall m :: 0 <= m < |p| ==> q[m].0 == p[m].0;
      assert KeyIndex(q, k) == Some(i);
    case None =>
      assert forall m :: 0 <= m < |p| ==> q[m] == p[m];
      assert q[|p|].0 == k;
      assert KeyIndex(q, k) == Some(|p|);
  }

  /** After `p[k] = v`, every other key reads as before. */
  lemma PutGetOther(p: Payload, k: string, v: Option<Datum>, j: string)
    requires j != k
    ensures Get(Put(p, k, v), j) == Get(p, j)
  {
    var q := Put(p, k, v);
    match KeyIndex(p, k)
    case Some(i) =>
      assert forall m :: 0 <= m < |p| ==> q[m].0 == p[m].0;
      assert KeyIndex(q, j) == KeyIndex(p, j);
    case None =>
      assert forall m :: 0 <= m < |p| ==> q[m] == p[m];
      assert q[|p|].0 != j;
      assert KeyIndex(q, j) == KeyIndex(p, j);
  }

  /** `p[k] = v` keeps the keys without repetition, and adds `k` to them. */
  lemma PutKeys(p: Payload, k: string, v: Option<Datum>)
    requires UniqueKeys(p)
    ensures UniqueKeys(Put(p, k, v))
    ensures forall j :: HasKey(Put(p, k, v), j) <==> HasKey(p, j) || j == k
  {
    var q := Put(p, k, v);
    match KeyIndex(p, k)
    case Some(i) =>
      assert forall m :: 0 <= m < |p| ==> q[m].0 == p[m].0;
    case None =>
      assert forall m :: 0 <= m < |p| ==> q[m] == p[m];
      assert q[|p|].0 == k;
  }

  /** The note list a field adds to. */
  function NoteList(note: Option<string>): seq<string> {
    if note.Some? then [note.value] else []
  }

  /** The payload and the notes `coerce_number` collected over `fields`, the columns of the
      sheet being `cols` (seed_bom_drom_tsv.py:93-103): a field whose column is missing is skipped. */
  function PayloadOf(fields: seq<(string, string)>, cols: seq<string>, cells: seq<string>,
                     floatRepr: real -> string, parseFloat: string -> Option<real>): (Payload, seq<string>)
  {
    if fields == [] then ([], [])
    else
      var r := PayloadOf(fields[..|fields| - 1], cols, cells, floatRepr, parseFloat);
      var (col, attr) := fields[|fields| - 1];
      if col !in cols then r
      else
        var fv := FieldValue(attr, CellOf(cols, cells, col), floatRepr, parseFloat);
        (Put(r.0, attr, fv.0), r.1 + NoteList(fv.1))
  }

  /** The payload loop of seed_bom_drom_tsv.py:93-103. */
  method BuildPayload(fields: seq<(string, string)>, cols: seq<string>, cells: seq<string>,
                      floatRepr: real -> string, parseFloat: string -> Option<real>)
    returns (payload: Payload, notesExtra: seq<string>)
    ensures (payload, notesExtra) == PayloadOf(fields, cols, cells, floatRepr, parseFloat)
  {
    payload, notesExtra := [], [];
    for n := 0 to |fields|
      invariant (payload, notesExtra) == PayloadOf(fields[..n], cols, cells, floatRepr, parseFloat)
    {
      assert fields[..n + 1][..n] == fields[..n];
      var (col, attr) := fields[n];
      if col in cols {
        var (val, note) := FieldValue(attr, CellOf(cols, cells, col), floatRepr, parseFloat);
        payload := Put(payload, attr, val);
        notesExtra := notesExtra + NoteList(note);
      }
    }
    assert fields[..|fields|] == fields;
  }

  /** Some field whose column is present fills `attr`. */
  predicate Filled(fields: seq<(string, string)>, cols: seq<string>, attr: string) {
    exists i :: 0 <= i < |fields| && fields[i].0 in cols && fields[i].1 == attr
  }

  /** The payload has each filled attribute once, and no other. */
  lemma {:induction false} PayloadKeys(fields: seq<(string, string)>, cols: seq<string>, cells: seq<string>,
                                       floatRepr: real -> string, parseFloat: string -> Option<real>)
    ensures var p := PayloadOf(fields, cols, cells, floatRepr, parseFloat).0;
            UniqueKeys(p) && forall a :: HasKey(p, a) <==> Filled(fields, cols, a)
  {
    if fields != [] {
      var init := fields[..|fields| - 1];
      PayloadKeys(init, cols, cells, floatRepr, parseFloat);
      var q := PayloadOf(init, cols, cells, floatRepr, parseFloat).0;
      var (col, attr) := fields[|fields| - 1];
      assert forall a :: Filled(fields, cols, a) <==> Filled(init, cols, a) || (col in cols && a == attr) by {
        forall a ensures Filled(fields, cols, a) ==> Filled(init, cols, a) || (col in cols && a == attr) {
          if Filled(fields, cols, a) {
            var i :| 0 <= i < |fields| && fields[i].0 in cols && fields[i].1 == a;
            if i < |init| {
              assert init[i] == fields[i];
            }
          }
        }
        forall a | Filled(init, cols, a) ensures Filled(fields, cols, a) {
          var i :| 0 <= i < |init| && init[i].0 in cols && init[i].1 == a;
          assert fields[i] == init[i];
        }
      }
      if col in cols {
        var fv := FieldValue(attr, CellOf(cols, cells, col), floatRepr, parseFloat);
        PutKeys(q, attr, fv.0);
      }
    }
  }

  /** An attribute holds the value read from the last field that fills it: a later entry of
      the field map overwrites an earlier one with the same attribute. */
  lemma {:induction false} PayloadGet(fields: seq<(string, string)>, cols: seq<string>, cells: seq<string>, i: nat,
                                      floatRepr: real -> string, parseFloat: string -> Option<real>)
    requires i < |fields| && fields[i].0 in cols
    requires forall j :: i < j < |fields| && fields[j].1 == fields[i].1 ==> fields[j].0 !in cols
    ensures Get(PayloadOf(fields, cols, cells, floatRepr, parseFloat).0, fields[i].1)
              == FieldValue(fields[i].1, CellOf(cols, cells, fields[i].0), floatRepr, parseFloat).0
  {
    var init := fields[..|fields| - 1];
    var q := PayloadOf(init, cols, cells, floatRepr, parseFloat).0;
    var (col, attr) := fields[|fields| - 1];
    if i == |fields| - 1 {
      PutGetSame(q, attr, FieldValue(attr, CellOf(cols, cells, col), floatRepr, parseFloat).0);
    } else {
      assert init[i] == fields[i];
      PayloadGet(init, cols, cells, i, floatRepr, parseFloat);
      if col in cols {
        PutGetOther(q, attr, FieldValue(attr, CellOf(cols, cells, col), floatRepr, parseFloat).0, fields[i].1);
      }
    }
  }

  /** What an attribute of the payload may hold: a numeric attribute no text, any other
      attribute stripped, non-empty text. */
  predicate WellTyped(attr: string, v: Option<Datum>) {
    v.Some? ==> if attr in NumericAttrs then !v.value.TextDatum?
                else v.value.TextDatum? && v.value.s != [] && Stripped(v.value.s)
  }

  /** Every attribute of a payload holds a value of its kind. */
  lemma {:induction false} PayloadWellTyped(fields: seq<(string, string)>, cols: seq<string>, cells: seq<string>,
                                            floatRepr: real -> string, parseFloat: string -> Option<real>)
    ensures forall a :: WellTyped(a, Get(PayloadOf(fields, cols, cells, floatRepr, parseFloat).0, a))
  {
    if fields != [] {
      var init := fields[..|fields| - 1];
      PayloadWellTyped(init, cols, cells, floatRepr, parseFloat);
      var q := PayloadOf(init, cols, cells, floatRepr, parseFloat).0;
      var (col, attr) := fields[|fields| - 1];
      if col in cols {
        var v := FieldValue(attr, CellOf(cols, cells, col), floatRepr, parseFloat).0;
        forall a ensures WellTyped(a, Get(Put(q, attr, v), a)) {
          if a == attr {
            PutGetSame(q, attr, v);
          } else {
            PutGetOther(q, attr, v, a);
          }
        }
      }
    }
  }

  /** Text with nothing to strip and at least one character. */
  predicate Solid(s: string) {
    s != [] && Stripped(s)
  }

  predicate AllSolid(xs: seq<string>) {
    forall k :: 0 <= k < |xs| ==> Solid(xs[k])
  }

  /** The note for a number with a remark starts with `P` and ends with a quote. */
  lemma ParsedNoteSolid(t: string, base: real, extra: string, floatRepr: real -> string)
    ensures Solid(ParsedNote(t, base, extra, floatRepr))
  {
    var e := ParsedNote(t, base, extra, floatRepr);
    assert e[0] == 'P' && e[|e| - 1] == '\'';
  }

  /** The note for text kept as text ends with that text. */
  lemma KeptNoteSolid(t: string)
    requires Solid(t)
    ensures Solid(KeptNote(t))
  {
    var e := KeptNote(t);
    assert e[0] == 'K' && e[|e| - 1] == t[|t| - 1];
  }

  /** The null-text branch of `coerce_number`. */
  lemma CoerceTextNull(t: string, floatRepr: real -> string, parseFloat: string -> Option<real>)
    requires t in NullTexts
    ensures CoerceText(t, floatRepr, parseFloat) == (None, None)
  {
  }

  /** A note `coerce_number` adds has nothing to strip. */
  lemma CoerceTextNoteSolid(t: string, floatRepr: real -> string, parseFloat: string -> Option<real>)
    requires Stripped(t) && CoerceText(t, floatRepr, parseFloat).1.Some?
    ensures Solid(CoerceText(t, floatRepr, parseFloat).1.value)
  {
    if t in NullTexts {
      CoerceTextNull(t, floatRepr, parseFloat);
      assert false;
    }
    assert t != "";
    match ParenForm(t)
    case Some((n, extra)) =>
      CoerceTextParen(t, n, extra, floatRepr, parseFloat);
      ParsedNoteSolid(t, Value(n), extra, floatRepr);
    case None =>
      match ParseFloat(RemoveChar(t, ','), parseFloat)
      case Some(f) =>
        CoerceTextFloat(t, f, floatRepr, parseFloat);
        assert false;
      case None =>
        CoerceTextKept(t, floatRepr, parseFloat);
        KeptNoteSolid(t);
  }

  /** A note a field adds has nothing to strip. */
  lemma FieldNoteSolid(attr: string, cell: string, floatRepr: real -> string, parseFloat: string -> Option<real>)
    ensures var note := FieldValue(attr, cell, floatRepr, parseFloat).1; note.Some? ==> Solid(note.value)
  {
    if attr in NumericAttrs {
      CoerceOfStr(cell, floatRepr, parseFloat);
      if CoerceText(Strip(cell), floatRepr, parseFloat).1.Some? {
        CoerceTextNoteSolid(Strip(cell), floatRepr, parseFloat);
      }
    }
  }

  /** Every note collected while building a payload has nothing to strip. */
  lemma {:induction false} PayloadNotesSolid(fields: seq<(string, string)>, cols: seq<string>, cells: seq<string>,
                                             floatRepr: real -> string, parseFloat: string -> Option<real>)
    ensures AllSolid(PayloadOf(fields, cols, cells, floatRepr, parseFloat).1)
  {
    if fields != [] {
      var init := fields[..|fields| - 1];
      PayloadNotesSolid(init, cols, cells, floatRepr, parseFloat);
      var (col, attr) := fields[|fields| - 1];
      if col in cols {
        var es0 := PayloadOf(init, cols, cells, floatRepr, parseFloat).1;
        var note := FieldValue(attr, CellOf(cols, cells, col), floatRepr, parseFloat).1;
        FieldNoteSolid(attr, CellOf(cols, cells, col), floatRepr, parseFloat);
        var es := es0 + NoteList(note);
        assert PayloadOf(fields, cols, cells, floatRepr, parseFloat).1 == es;
        forall k | 0 <= k < |es| ensures Solid(es[k]) {
          if k < |es0| {
            assert es[k] == es0[k];
          }
        }
      }
    }
  }

  // ---------------------------------------------------------------------------------------
  // Merging the notes

  /** `payload.get("notes") or ""`. */
  function ExistingNotes(p: Payload): string {
    match Get(p, "notes")
    case Some(TextDatum(s)) => s
    case _ => ""
  }

  /** The separator before the collected notes: `" | "` after existing notes, none otherwise. */
  function NoteSeparator(existing: string): string {
    if existing != "" then " | " else ""
  }

  /** seed_bom_drom_tsv.py:110-113: with notes collected, `notes` becomes the existing notes,
      a separator and the collected notes joined by `"; "`, stripped. */
  function MergeNotes(p: Payload, extras: seq<string>): Payload {
    if extras == [] then p
    else
      var existing := ExistingNotes(p);
      Put(p, "notes", Some(TextDatum(Strip(existing + NoteSeparator(existing) + Join("; ", extras)))))
  }

  /** Joining texts with nothing to strip gives text with nothing to strip. */
  lemma {:induction false} JoinSolid(sep: string, xs: seq<string>)
    requires xs != [] && AllSolid(xs)
    ensures Solid(Join(sep, xs))
  {
    if |xs| > 1 {
      JoinSolid(sep, xs[1..]);
      var j := Join(sep, xs[1..]);
      var m := xs[0] + sep + j;
      assert Solid(xs[0]);
      assert m[0] == xs[0][0] && m[|m| - 1] == j[|j| - 1];
    } else {
      assert Solid(xs[0]);
    }
  }

  /** The strip in the merge cuts nothing away: the merged notes are exactly the existing
      notes, the separator and the collected notes joined by `"; "`. */
  lemma MergedNotesExact(existing: string, extras: seq<string>)
    requires Stripped(existing) && extras != [] && AllSolid(extras)
    ensures var m := existing + NoteSeparator(existing) + Join("; ", extras); Strip(m) == m
  {
    var j := Join("; ", extras);
    JoinSolid("; ", extras);
    assert j != [] && Stripped(j);
    var m := existing + NoteSeparator(existing) + j;
    assert m[|m| - 1] == j[|j| - 1];
    assert m[0] == if existing != "" then existing[0] else j[0];
    StripOfStripped(m);
  }

  /** Merging leaves every attribute but `notes` alone, and with notes collected `notes` holds
      the existing notes, the separator and the collected notes joined by `"; "`. */
  lemma MergeNotesSpec(fields: seq<(string, string)>, cols: seq<string>, cells: seq<string>, a: string,
                       floatRepr: real -> string, parseFloat: string -> Option<real>)
    ensures var (p, extras) := PayloadOf(fields, cols, cells, floatRepr, parseFloat);
            var existing := ExistingNotes(p);
            Get(MergeNotes(p, extras), a)
              == if a == "notes" && extras != []
                 then Some(TextDatum(existing + NoteSeparator(existing) + Join("; ", extras)))
                 else Get(p, a)
  {
    var p := PayloadOf(fields, cols, cells, floatRepr, parseFloat).0;
    var extras := PayloadOf(fields, cols, cells, floatRepr, parseFloat).1;
    if extras != [] {
      var existing := ExistingNotes(p);
      PayloadWellTyped(fields, cols, cells, floatRepr, parseFloat);
      assert "notes" !in NumericAttrs;
      assert WellTyped("notes", Get(p, "notes"));
      assert Stripped(existing);
      PayloadNotesSolid(fields, cols, cells, floatRepr, parseFloat);
      MergedNotesExact(existing, extras);
      var v := Some(TextDatum(Strip(existing + NoteSeparator(existing) + Join("; ", extras))));
      if a == "notes" {
        PutGetSame(p, "notes", v);
      } else {
        PutGetOther(p, "notes", v, a);
      }
    }
  }

  // ---------------------------------------------------------------------------------------
  // Writing a payload to a row

  /** A payload value written to a Text column. */
  function TextOf(v: Option<Datum>, floatRepr: real -> string): Option<string> {
    match v
    case None => None
    case Some(d) => Some(DatumText(d, floatRepr))
  }

  /** A payload value written to a Float column: an `int` is stored as the float it equals.
      No text reaches a numeric attribute (`PayloadWellTyped`). */
  function NumberOf(v: Option<Datum>): Option<real> {
    match v
    case Some(IntDatum(i)) => Some(i as real)
    case Some(FloatDatum(x)) => Some(x)
    case _ => None
  }

  /** The attributes the payload may write: those the model has, but the part number. */
  predicate Writable(k: string) {
    k in ModelAttrs && k != PKey
  }

  /** The column of `main_bom_storage` a writable attribute lands in. */
  datatype Column = PartName | Supplier | Description | Notes | QtyNeededPerLrv
                  | TotalReceived | ShippedOut | CurrentStock | BackOrdered
  {
    /** Whether the column is a number column. */
    predicate Numeric() {
      this in {QtyNeededPerLrv, TotalReceived, ShippedOut, CurrentStock, BackOrdered}
    }
  }

  /** A property alias lands in the column it reads: `component` in `description`,
      `qty_on_site` in `total_quantity_received_by_store`, and so on
      (app/models.py:43-66, 80-83). */
  function ColumnOf(k: string): (c: Column)
    requires Writable(k)
    ensures c.Numeric() <==> k in NumericAttrs
    ensures c == Notes <==> k == "notes"
  {
    if k == "part_name" then PartName
    else if k == "supplier" then Supplier
    else if k == "component" then Description
    else if k == "notes" then Notes
    else if k == "qty_per_lrv" then QtyNeededPerLrv
    else if k == "qty_on_site" then TotalReceived
    else if k == "qty_shipped_out" then ShippedOut
    else if k == "qty_current_stock" then CurrentStock
    else BackOrdered
  }

  /** Two writable attributes land in two columns. */
  lemma ColumnOfInjective(j: string, k: string)
    requires Writable(j) && Writable(k) && j != k
    ensures ColumnOf(j) != ColumnOf(k)
  {
  }

  /** `v` stored in column `c`, as a number or as text. */
  function Store(row: Models.Row, c: Column, v: Option<Datum>, floatRepr: real -> string): Models.Row {
    match c
    case PartName => row.(partName := TextOf(v, floatRepr))
    case Supplier => row.(supplier := TextOf(v, floatRepr))
    case Description => row.(description := TextOf(v, floatRepr))
    case Notes => row.(notes := TextOf(v, floatRepr))
    case QtyNeededPerLrv => row.(qtyNeededPerLrv := NumberOf(v))
    case TotalReceived => row.(totalQuantityReceivedByStore := NumberOf(v))
    case ShippedOut => row.(quantityShippedOutByStore := NumberOf(v))
    case CurrentStock => row.(quantityCurrentlyInStockAtStore := NumberOf(v))
    case BackOrdered => row.(quantityBackOrdered := NumberOf(v))
  }

  /** What column `c` holds. */
  function Load(row: Models.Row, c: Column): Option<Datum> {
    match c
    case PartName => TextValue(row.partName)
    case Supplier => TextValue(row.supplier)
    case Description => TextValue(row.description)
    case Notes => TextValue(row.notes)
    case QtyNeededPerLrv => NumberValue(row.qtyNeededPerLrv)
    case TotalReceived => NumberValue(row.totalQuantityReceivedByStore)
    case ShippedOut => NumberValue(row.quantityShippedOutByStore)
    case CurrentStock => NumberValue(row.quantityCurrentlyInStockAtStore)
    case BackOrdered => NumberValue(row.quantityBackOrdered)
  }

  function TextValue(s: Option<string>): Option<Datum> {
    if s.Some? then Some(TextDatum(s.value)) else None
  }

  function NumberValue(x: Option<real>): Option<Datum> {
    if x.Some? then Some(FloatDatum(x.value)) else None
  }

  /** A stored value reads back as its column keeps it, and every other column reads as
      before. */
  lemma StoreLoad(row: Models.Row, c: Column, v: Option<Datum>, floatRepr: real -> string, d: Column)
    ensures Load(Store(row, c, v, floatRepr), d)
              == if d != c then Load(row, d)
                 else if c.Numeric() then NumberValue(NumberOf(v))
                 else TextValue(TextOf(v, floatRepr))
  {
  }

  /** `setattr(obj, k, v)` for an attribute the model has (seed_bom_drom_tsv.py:128-129):
      the value lands in the column of `k`, and no other column changes. */
  function SetAttr(row: Models.Row, k: string, v: Option<Datum>, floatRepr: real -> string): (r: Models.Row)
    requires Writable(k)
    ensures r.partNumber == row.partNumber && r.partType == row.partType
    ensures r.totalNeededFor233Lrv == row.totalNeededFor233Lrv && r.coverageLrvs == row.coverageLrvs
    ensures k != "notes" ==> r.notes == row.notes
  {
    Store(row, ColumnOf(k), v, floatRepr)
  }

  /** What `getattr(obj, k)` reads for a writable attribute, before `or 0.0` is applied. */
  function Attr(row: Models.Row, k: string): Option<Datum>
    requires Writable(k)
  {
    Load(row, ColumnOf(k))
  }

  /** After `setattr(obj, k, v)`, `k` reads `v` as its column stores it, and every other
      writable attribute reads as before. */
  lemma SetAttrSpec(row: Models.Row, k: string, v: Option<Datum>, floatRepr: real -> string, j: string)
    requires Writable(k) && Writable(j)
    ensures Attr(SetAttr(row, k, v, floatRepr), j)
              == if j != k then Attr(row, j)
                 else if k in NumericAttrs then NumberValue(NumberOf(v))
                 else TextValue(TextOf(v, floatRepr))
  {
    if j != k {
      ColumnOfInjective(j, k);
    }
    StoreLoad(row, ColumnOf(k), v, floatRepr, ColumnOf(j));
  }

  /** The properties over the number columns read what was written to them, a missing value
      as 0.0. */
  lemma AliasReadsBack(row: Models.Row, v: Option<Datum>, floatRepr: real -> string)
    ensures SetAttr(row, "qty_per_lrv", v, floatRepr).QtyPerLrv() == Models.OrZero(NumberOf(v))
    ensures SetAttr(row, "qty_current_stock", v, floatRepr).QtyCurrentStock() == Models.OrZero(NumberOf(v))
    ensures SetAttr(row, "qty_shipped_out", v, floatRepr).QtyShippedOut() == Models.OrZero(NumberOf(v))
  {
  }

  /** `f"{k}={v}"`, the note for an attribute the model lacks, when `v not in (None, "")`
      (seed_bom_drom_tsv.py:132-133). */
  function ExtraNote(k: string, v: Option<Datum>, floatRepr: real -> string): Option<string> {
    if v.Some? && v.value != TextDatum("") then Some(k + "=" + DatumText(v.value, floatRepr)) else None
  }

  /** `(obj.notes + " | " if obj.notes else "") + extra` (seed_bom_drom_tsv.py:134). */
  function AppendNote(notes: Option<string>, e: string): (r: Option<string>)
    ensures r.Some?
  {
    Some((if notes.Some? && notes.value != "" then notes.value + " | " else "") + e)
  }

  function AppendNotes(notes: Option<string>, es: seq<string>): Option<string> {
    if es == [] then notes else AppendNote(AppendNotes(notes, es[..|es| - 1]), es[|es| - 1])
  }

  /** The notes for the attributes of `p` the model lacks, in payload order. */
  function Extras(p: Payload, floatRepr: real -> string): seq<string> {
    if p == [] then []
    else
      var (k, v) := p[|p| - 1];
      Extras(p[..|p| - 1], floatRepr) + if k in ModelAttrs then [] else NoteList(ExtraNote(k, v, floatRepr))
  }

  /** Every writable attribute of `p` written to `row`, in payload order. */
  function SetAll(row: Models.Row, p: Payload, floatRepr: real -> string): (r: Models.Row)
    ensures r.partNumber == row.partNumber && r.partType == row.partType
    ensures r.totalNeededFor233Lrv == row.totalNeededFor233Lrv && r.coverageLrvs == row.coverageLrvs
  {
    if p == [] then row
    else
      var r := SetAll(row, p[..|p| - 1], floatRepr);
      var (k, v) := p[|p| - 1];
      if Writable(k) then SetAttr(r, k, v, floatRepr) else r
  }

  /** What a writable attribute reads after `v` is written to it. */
  function Written(k: string, v: Option<Datum>, floatRepr: real -> string): Option<Datum> {
    if k in NumericAttrs then NumberValue(NumberOf(v)) else TextValue(TextOf(v, floatRepr))
  }

  /** Reading a payload whose last entry is `(k, v)`: `k` reads `v` when the keys are
      unique, and every other key reads as in the entries before. */
  lemma GetLast(p: Payload, j: string)
    requires p != []
    ensures var init := p[..|p| - 1];
            && (j != p[|p| - 1].0 ==> Get(p, j) == Get(init, j) && (HasKey(p, j) <==> HasKey(init, j)))
            && (UniqueKeys(p) && j == p[|p| - 1].0 ==> Get(p, j) == p[|p| - 1].1 && HasKey(p, j))
  {
    var init := p[..|p| - 1];
    assert forall i :: 0 <= i < |init| ==> init[i] == p[i];
    if j != p[|p| - 1].0 {
      assert KeyIndex(p, j) == KeyIndex(init, j);
      if HasKey(p, j) {
        var i :| 0 <= i < |p| && p[i].0 == j;
        assert init[i].0 == j;
      }
    } else if UniqueKeys(p) {
      assert KeyIndex(p, j) == Some(|p| - 1);
    }
  }

  /** After the payload is written, each writable attribute it holds reads the value it holds,
      and each other writable attribute reads as before. */
  lemma {:induction false} SetAllReads(row: Models.Row, p: Payload, floatRepr: real -> string, j: string)
    requires UniqueKeys(p) && Writable(j)
    ensures Attr(SetAll(row, p, floatRepr), j)
              == if HasKey(p, j) then Written(j, Get(p, j), floatRepr) else Attr(row, j)
  {
    if p != [] {
      var init := p[..|p| - 1];
      assert UniqueKeys(init) by {
        assert forall i :: 0 <= i < |init| ==> init[i] == p[i];
      }
      SetAllReads(row, init, floatRepr, j);
      GetLast(p, j);
      var (k, v) := p[|p| - 1];
      if Writable(k) {
        SetAttrSpec(SetAll(row, init, floatRepr), k, v, floatRepr, j);
      }
    }
  }

  /** The write loop of seed_bom_drom_tsv.py:125-134 as its comment intends: every attribute
      the model has is written, and the notes for the others are added to the notes that
      result, so that they are not lost. */
  function Applied(row: Models.Row, p: Payload, floatRepr: real -> string): Models.Row {
    var r := SetAll(row, p, floatRepr);
    r.(notes := AppendNotes(r.notes, Extras(p, floatRepr)))
  }

  /** The payload written: every writable attribute but the notes reads what the payload
      holds for it, or what it read before when the payload lacks it. */
  lemma AppliedReads(row: Models.Row, p: Payload, floatRepr: real -> string, j: string)
    requires UniqueKeys(p) && Writable(j) && j != "notes"
    ensures Attr(Applied(row, p, floatRepr), j)
              == if HasKey(p, j) then Written(j, Get(p, j), floatRepr) else Attr(row, j)
  {
    SetAllReads(row, p, floatRepr, j);
  }

  /** One step of the write loop as written: the part number is skipped, a property without a
      setter raises `AttributeError` (`None`), a column is set, and a note for an attribute the
      model lacks is added to the notes as they stand. */
  function WriteAsWritten(r: Models.Row, k: string, v: Option<Datum>, floatRepr: real -> string): Option<Models.Row> {
    if k == PKey then Some(r)
    else if k in AliasAttrs then None
    else if k in ModelAttrs then Some(SetAttr(r, k, v, floatRepr))
    else match ExtraNote(k, v, floatRepr)
      case Some(e) => Some(r.(notes := AppendNote(r.notes, e)))
      case None => Some(r)
  }

  /** The write loop of seed_bom_drom_tsv.py:125-134 as written; `None` when it raises. */
  function ApplyAsWritten(row: Models.Row, p: Payload, floatRepr: real -> string): (r: Option<Models.Row>)
    ensures (exists i :: 0 <= i < |p| && p[i].0 in AliasAttrs) ==> r.None?
    ensures p == [] ==> r == Some(row)
  {
    if p == [] then Some(row)
    else match ApplyAsWritten(row, p[..|p| - 1], floatRepr)
      case None => None
      case Some(r) => WriteAsWritten(r, p[|p| - 1].0, p[|p| - 1].1, floatRepr)
  }

  /** `s` occurs inside `t` once `t` starts with text containing it. */
  lemma ContainsInPrefix(s: string, sub: string, t: string)
    requires Contains(s, sub) && StartsWith(t, s)
    ensures Contains(t, sub)
  {
    var i :| 0 <= i <= |s| - |sub| && StartsWith(s[i..], sub);
    assert t[i..][..|sub|] == s[i..][..|sub|];
  }

  /** Appending a note keeps the notes before it and adds the note at the end. */
  lemma AppendNoteKeeps(notes: Option<string>, e: string)
    ensures notes.Some? ==> StartsWith(AppendNote(notes, e).value, notes.value)
    ensures Contains(AppendNote(notes, e).value, e)
  {
    var t := AppendNote(notes, e).value;
    var i := |t| - |e|;
    assert t[i..] == e;
    assert StartsWith(t[i..], e);
    if notes.Some? {
      assert t[..|notes.value|] == notes.value;
    }
  }

  /** Appending notes keeps the notes before them, and each appended note occurs in the result. */
  lemma {:induction false} AppendNotesKeeps(notes: Option<string>, es: seq<string>)
    ensures notes.Some? ==> AppendNotes(notes, es).Some? && StartsWith(AppendNotes(notes, es).value, notes.value)
    ensures es != [] ==> AppendNotes(notes, es).Some?
    ensures forall k :: 0 <= k < |es| ==> Contains(AppendNotes(notes, es).value, es[k])
  {
    if es != [] {
      var init := es[..|es| - 1];
      var e := es[|es| - 1];
      AppendNotesKeeps(notes, init);
      var n := AppendNotes(notes, init);
      AppendNoteKeeps(n, e);
      var t := AppendNote(n, e).value;
      forall k | 0 <= k < |es| ensures Contains(t, es[k]) {
        if k < |init| {
          assert es[k] == init[k];
          ContainsInPrefix(n.value, es[k], t);
        }
      }
      if notes.Some? {
        assert StartsWith(t, n.value);
        assert t[..|notes.value|] == n.value[..|notes.value|];
      }
    }
  }

  /** Nothing is lost: each note for an attribute the model lacks occurs in the notes that
      result, after the notes the payload wrote. */
  lemma ExtrasKept(row: Models.Row, p: Payload, floatRepr: real -> string)
    ensures var es := Extras(p, floatRepr);
            var notes := Applied(row, p, floatRepr).notes;
            && (es != [] ==> notes.Some? && forall k :: 0 <= k < |es| ==> Contains(notes.value, es[k]))
            && (SetAll(row, p, floatRepr).notes.Some? ==> StartsWith(notes.value, SetAll(row, p, floatRepr).notes.value))
  {
    AppendNotesKeeps(SetAll(row, p, floatRepr).notes, Extras(p, floatRepr));
  }

  /** Storing in a column other than the notes commutes with setting the notes. */
  lemma StoreNotesCommute(r: Models.Row, c: Column, v: Option<Datum>, notes: Option<string>, floatRepr: real -> string)
    requires c != Notes
    ensures Store(r.(notes := notes), c, v, floatRepr) == Store(r, c, v, floatRepr).(notes := notes)
  {
    match c
    case PartName =>
    case Supplier =>
    case Description =>
    case QtyNeededPerLrv =>
    case TotalReceived =>
    case ShippedOut =>
    case CurrentStock =>
    case BackOrdered =>
  }

  /** Writing an attribute other than `notes` commutes with setting the notes. */
  lemma SetAttrNotesCommute(r: Models.Row, k: string, v: Option<Datum>, notes: Option<string>, floatRepr: real -> string)
    requires Writable(k) && k != "notes"
    ensures SetAttr(r.(notes := notes), k, v, floatRepr) == SetAttr(r, k, v, floatRepr).(notes := notes)
  {
    StoreNotesCommute(r, ColumnOf(k), v, notes, floatRepr);
  }

  /** Where the payload has no property alias and no `notes`, the loop as written raises
      nothing and gives what `Applied` gives: the correction changes only the cases it is for. */
  lemma {:induction false} AppliedAgreesAsWritten(row: Models.Row, p: Payload, floatRepr: real -> string)
    requires forall i :: 0 <= i < |p| ==> p[i].0 !in AliasAttrs && p[i].0 != "notes"
    ensures ApplyAsWritten(row, p, floatRepr) == Some(Applied(row, p, floatRepr))
  {
    if p != [] {
      var init := p[..|p| - 1];
      var (k, v) := p[|p| - 1];
      AppliedAgreesAsWritten(row, init, floatRepr);
      var r := SetAll(row, init, floatRepr);
      var n := AppendNotes(r.notes, Extras(init, floatRepr));
      assert ApplyAsWritten(row, init, floatRepr) == Some(r.(notes := n));
      assert k !in AliasAttrs && k != "notes";
      if Writable(k) {
        SetAttrNotesCommute(r, k, v, n, floatRepr);
        assert SetAll(row, p, floatRepr) == SetAttr(r, k, v, floatRepr);
        assert Extras(p, floatRepr) == Extras(init, floatRepr);
        assert WriteAsWritten(r.(notes := n), k, v, floatRepr) == Some(SetAttr(r.(notes := n), k, v, floatRepr));
      } else {
        assert SetAll(row, p, floatRepr) == r;
        if k !in ModelAttrs {
          var es := Extras(init, floatRepr);
          assert Extras(p, floatRepr) == es + NoteList(ExtraNote(k, v, floatRepr));
          match ExtraNote(k, v, floatRepr)
          case Some(e) =>
            assert (es + [e])[..|es|] == es;
          case None =>
            assert es + [] == es;
        } else {
          var es := Extras(init, floatRepr);
          assert Extras(p, floatRepr) == es + [];
          assert es + [] == es;
        }
      }
    }
  }

  /** The write loop, with the notes for attributes the model lacks kept aside and added
      after the writes. */
  method ApplyPayload(row: Models.Row, p: Payload, floatRepr: real -> string) returns (r: Models.Row)
    ensures r == Applied(row, p, floatRepr)
  {
    r := row;
    var extras: seq<string> := [];
    for n := 0 to |p|
      invariant r == SetAll(row, p[..n], floatRepr) && extras == Extras(p[..n], floatRepr)
    {
      assert p[..n + 1][..n] == p[..n];
      var (k, v) := p[n];
      if Writable(k) {
        r := SetAttr(r, k, v, floatRepr);
      } else if k !in ModelAttrs {
        extras := extras + NoteList(ExtraNote(k, v, floatRepr));
      }
    }
    assert p[..|p|] == p;
    r := r.(notes := AppendNotes(r.notes, extras));
  }

  /** As written, a payload with a property alias raises `AttributeError`: `qty_per_lrv` has
      no setter. The corrected write stores the value in the column the property reads. */
  lemma AliasWriteRaises(floatRepr: real -> string)
    ensures var p := [("qty_per_lrv", Some(IntDatum(2)))];
            && ApplyAsWritten(Models.FreshRow("P1"), p, floatRepr).None?
            && Applied(Models.FreshRow("P1"), p, floatRepr).QtyPerLrv() == 2.0
  {
    var p := [("qty_per_lrv", Some(IntDatum(2)))];
    assert p[..0] == [];
  }

  /** The note for `num_cars = 4`. */
  lemma NumCarsNote(floatRepr: real -> string)
    ensures "num_cars" !in ModelAttrs
    ensures ExtraNote("num_cars", Some(IntDatum(4)), floatRepr) == Some("num_cars=4")
  {
    assert DigitChar(4) == '4';
    assert IntToDecimal(4) == "4";
    var t := "num_cars" + "=" + "4";
    assert |t| == 10 && t[8] == '=' && t[9] == '4';
    assert forall k | 0 <= k < 8 :: t[k] == "num_cars"[k];
    assert t == "num_cars=4";
  }

  /** The note appended to the notes `abc`. */
  lemma AbcThenNumCars()
    ensures AppendNotes(Some("abc"), ["num_cars=4"]) == Some("abc | num_cars=4")
  {
    var es := ["num_cars=4"];
    assert es[..0] == [];
    var t := "abc" + " | " + "num_cars=4";
    assert |t| == 16;
    assert forall k | 0 <= k < 3 :: t[k] == "abc"[k];
    assert forall k | 3 <= k < 6 :: t[k] == " | "[k - 3];
    assert forall k | 6 <= k < 16 :: t[k] == "num_cars=4"[k - 6];
    assert t == "abc | num_cars=4";
  }

  /** The payload `num_cars = 4, notes = abc`: its extras, and its model attributes set. */
  lemma NumCarsThenNotes(floatRepr: real -> string)
    ensures var p := [("num_cars", Some(IntDatum(4))), ("notes", Some(TextDatum("abc")))];
            && Extras(p, floatRepr) == ["num_cars=4"]
            && SetAll(Models.FreshRow("P1"), p, floatRepr) == Models.FreshRow("P1").(notes := Some("abc"))
  {
    var p := [("num_cars", Some(IntDatum(4))), ("notes", Some(TextDatum("abc")))];
    assert p[..1] == [p[0]] && p[..1][..0] == [];
    NumCarsNote(floatRepr);
    assert Extras(p[..1], floatRepr) == ["num_cars=4"];
  }

  /** As written, the note for `num_cars`, an attribute the model lacks, is added to the
      notes and then overwritten when the later `notes` attribute is set: it is lost. The
      corrected write keeps it after the notes. */
  lemma ExtrasBeforeNotesLost(floatRepr: real -> string)
    ensures var p := [("num_cars", Some(IntDatum(4))), ("notes", Some(TextDatum("abc")))];
            && ApplyAsWritten(Models.FreshRow("P1"), p, floatRepr) == Some(Models.FreshRow("P1").(notes := Some("abc")))
            && Applied(Models.FreshRow("P1"), p, floatRepr).notes == Some("abc | num_cars=4")
  {
    var p := [("num_cars", Some(IntDatum(4))), ("notes", Some(TextDatum("abc")))];
    assert p[..1] == [p[0]] && p[..1][..0] == [];
    NumCarsNote(floatRepr);
    NumCarsThenNotes(floatRepr);
    AbcThenNumCars();
  }

  // ---------------------------------------------------------------------------------------
  // Seeding the table

  /** `payload.get(PKEY)` when it is truthy. The part number is no numeric attribute, so it
      holds text or nothing (`PayloadWellTyped`). */
  function PartNumberOf(p: Payload): Option<string> {
    match Get(p, PKey)
    case Some(TextDatum(s)) => if s != "" then Some(s) else None
    case _ => None
  }

  /** The table keyed by part number, and the counts of seed_bom_drom_tsv.py:90. */
  datatype SeedState = SeedState(parts: map<string, Models.Row>, created: nat, updated: nat, skipped: nat)

  /** Every stored row sits under its own part number. */
  predicate Keyed(parts: map<string, Models.Row>) {
    forall pn :: pn in parts ==> parts[pn].partNumber == pn
  }

  /** `coverage_lrvs` holds what `calculate_lrv_coverage()` stores for the row. */
  predicate Recomputed(row: Models.Row) {
    row.coverageLrvs == Some(Models.Trunc(row.LrvCoverage()))
  }

  /** seed_bom_drom_tsv.py:116-141 for a payload with part number `pn`: the stored part or a
      fresh one takes the payload, has its coverage recomputed and is stored under `pn`. */
  function Upsert(st: SeedState, pn: string, p: Payload, floatRepr: real -> string): (r: SeedState)
    ensures r.parts.Keys == st.parts.Keys + {pn} && Recomputed(r.parts[pn])
    ensures r.parts[pn].partNumber == if pn in st.parts then st.parts[pn].partNumber else pn
    ensures forall q :: q in st.parts && q != pn ==> r.parts[q] == st.parts[q]
    ensures pn in st.parts ==> r == r.(created := st.created, updated := st.updated + 1, skipped := st.skipped)
    ensures pn !in st.parts ==> r == r.(created := st.created + 1, updated := st.updated, skipped := st.skipped)
  {
    var obj := if pn in st.parts then st.parts[pn] else Models.FreshRow(pn);
    var row := Applied(obj, p, floatRepr).Recomputed();
    var parts := st.parts[pn := row];
    if pn in st.parts then SeedState(parts, st.created, st.updated + 1, st.skipped)
    else SeedState(parts, st.created + 1, st.updated, st.skipped)
  }

  /** The part number a sheet row gives, if any. */
  function RowPartNumber(fields: seq<(string, string)>, cols: seq<string>, cells: seq<string>,
                         floatRepr: real -> string, parseFloat: string -> Option<real>): Option<string> {
    PartNumberOf(PayloadOf(fields, cols, cells, floatRepr, parseFloat).0)
  }

  /** One pass of the loop body of seed_bom_drom_tsv.py:91-141: a row without a part number
      is skipped; any other row has its notes merged and is upserted. */
  function SeedRow(st: SeedState, fields: seq<(string, string)>, cols: seq<string>, cells: seq<string>,
                   floatRepr: real -> string, parseFloat: string -> Option<real>): SeedState {
    var r := PayloadOf(fields, cols, cells, floatRepr, parseFloat);
    match PartNumberOf(r.0)
    case None => st.(skipped := st.skipped + 1)
    case Some(pn) => Upsert(st, pn, MergeNotes(r.0, r.1), floatRepr)
  }

  /** The loop over the rows. */
  function SeedRows(st: SeedState, fields: seq<(string, string)>, cols: seq<string>, rows: seq<seq<string>>,
                    floatRepr: real -> string, parseFloat: string -> Option<real>): SeedState {
    if rows == [] then st
    else SeedRow(SeedRows(st, fields, cols, rows[..|rows| - 1], floatRepr, parseFloat),
                 fields, cols, rows[|rows| - 1], floatRepr, parseFloat)
  }

  /** The part numbers the rows give. */
  function PartNumbers(fields: seq<(string, string)>, cols: seq<string>, rows: seq<seq<string>>,
                       floatRepr: real -> string, parseFloat: string -> Option<real>): set<string> {
    if rows == [] then {}
    else
      var pn := RowPartNumber(fields, cols, rows[|rows| - 1], floatRepr, parseFloat);
      PartNumbers(fields, cols, rows[..|rows| - 1], floatRepr, parseFloat) + if pn.Some? then {pn.value} else {}
  }

  /** How many rows give no part number. */
  function Skips(fields: seq<(string, string)>, cols: seq<string>, rows: seq<seq<string>>,
                 floatRepr: real -> string, parseFloat: string -> Option<real>): nat {
    if rows == [] then 0
    else
      var pn := RowPartNumber(fields, cols, rows[|rows| - 1], floatRepr, parseFloat);
      Skips(fields, cols, rows[..|rows| - 1], floatRepr, parseFloat) + if pn.None? then 1 else 0
  }

  /** One row: the table and counts change as `SeedRow` says. */
  lemma SeedRowEffect(st: SeedState, fields: seq<(string, string)>, cols: seq<string>, cells: seq<string>,
                      floatRepr: real -> string, parseFloat: string -> Option<real>)
    ensures var r := SeedRow(st, fields, cols, cells, floatRepr, parseFloat);
            match RowPartNumber(fields, cols, cells, floatRepr, parseFloat)
            case None => r == st.(skipped := st.skipped + 1)
            case Some(pn) =>
              && r.parts.Keys == st.parts.Keys + {pn} && Recomputed(r.parts[pn])
              && r.parts[pn].partNumber == (if pn in st.parts then st.parts[pn].partNumber else pn)
              && (forall q :: q in st.parts && q != pn ==> r.parts[q] == st.parts[q])
              && r.created + r.updated == st.created + st.updated + 1 && r.skipped == st.skipped
              && (r.created == st.created + 1 <==> pn !in st.parts)
  {
  }

  /** Every row is counted once: created, updated or skipped; the skipped ones are the rows
      without a part number. */
  lemma {:induction false} SeedCounts(st: SeedState, fields: seq<(string, string)>, cols: seq<string>, rows: seq<seq<string>>,
                                      floatRepr: real -> string, parseFloat: string -> Option<real>)
    ensures var r := SeedRows(st, fields, cols, rows, floatRepr, parseFloat);
            && r.created + r.updated + r.skipped == st.created + st.updated + st.skipped + |rows|
            && r.skipped == st.skipped + Skips(fields, cols, rows, floatRepr, parseFloat)
  {
    if rows != [] {
      var init := rows[..|rows| - 1];
      SeedCounts(st, fields, cols, init, floatRepr, parseFloat);
      SeedRowEffect(SeedRows(st, fields, cols, init, floatRepr, parseFloat), fields, cols, rows[|rows| - 1], floatRepr, parseFloat);
    }
  }

  /** One row adds its part number, if any, to the table. */
  lemma SeedRowKeys(st: SeedState, fields: seq<(string, string)>, cols: seq<string>, cells: seq<string>,
                    floatRepr: real -> string, parseFloat: string -> Option<real>)
    ensures var pn := RowPartNumber(fields, cols, cells, floatRepr, parseFloat);
            SeedRow(st, fields, cols, cells, floatRepr, parseFloat).parts.Keys == st.parts.Keys + (if pn.Some? then {pn.value} else {})
  {
    SeedRowEffect(st, fields, cols, cells, floatRepr, parseFloat);
  }

  /** One row grows the table by one exactly when it creates a part. */
  lemma SeedRowSize(st: SeedState, fields: seq<(string, string)>, cols: seq<string>, cells: seq<string>,
                    floatRepr: real -> string, parseFloat: string -> Option<real>)
    ensures var r := SeedRow(st, fields, cols, cells, floatRepr, parseFloat);
            r.created >= st.created && |r.parts| == |st.parts| + (r.created - st.created)
  {
    SeedRowEffect(st, fields, cols, cells, floatRepr, parseFloat);
    var r := SeedRow(st, fields, cols, cells, floatRepr, parseFloat);
    match RowPartNumber(fields, cols, cells, floatRepr, parseFloat)
    case None =>
    case Some(pn) =>
      if pn in st.parts {
        assert r.parts.Keys == st.parts.Keys;
      } else {
        assert r.parts.Keys == st.parts.Keys + {pn};
        assert |r.parts.Keys| == |st.parts.Keys| + 1;
      }
  }

  /** The table holds the parts it held and one part per part number of the sheet. */
  lemma {:induction false} SeedKeys(st: SeedState, fields: seq<(string, string)>, cols: seq<string>, rows: seq<seq<string>>,
                                    floatRepr: real -> string, parseFloat: string -> Option<real>)
    ensures SeedRows(st, fields, cols, rows, floatRepr, parseFloat).parts.Keys
            == st.parts.Keys + PartNumbers(fields, cols, rows, floatRepr, parseFloat)
  {
    if rows != [] {
      var init := rows[..|rows| - 1];
      SeedKeys(st, fields, cols, init, floatRepr, parseFloat);
      SeedRowKeys(SeedRows(st, fields, cols, init, floatRepr, parseFloat), fields, cols, rows[|rows| - 1], floatRepr, parseFloat);
    }
  }

  /** Each part created is one new entry of the table; an update adds none. */
  lemma {:induction false} SeedSize(st: SeedState, fields: seq<(string, string)>, cols: seq<string>, rows: seq<seq<string>>,
                                    floatRepr: real -> string, parseFloat: string -> Option<real>)
    ensures var r := SeedRows(st, fields, cols, rows, floatRepr, parseFloat);
            r.created >= st.created && |r.parts| == |st.parts| + (r.created - st.created)
  {
    if rows != [] {
      var init := rows[..|rows| - 1];
      SeedSize(st, fields, cols, init, floatRepr, parseFloat);
      SeedRowSize(SeedRows(st, fields, cols, init, floatRepr, parseFloat), fields, cols, rows[|rows| - 1], floatRepr, parseFloat);
    }
  }

  /** Every stored part stays under its own part number, the new ones included. */
  lemma {:induction false} SeedKeepsKeyed(st: SeedState, fields: seq<(string, string)>, cols: seq<string>, rows: seq<seq<string>>,
                                          floatRepr: real -> string, parseFloat: string -> Option<real>)
    requires Keyed(st.parts)
    ensures Keyed(SeedRows(st, fields, cols, rows, floatRepr, parseFloat).parts)
  {
    if rows != [] {
      var init := rows[..|rows| - 1];
      SeedKeepsKeyed(st, fields, cols, init, floatRepr, parseFloat);
      SeedRowEffect(SeedRows(st, fields, cols, init, floatRepr, parseFloat), fields, cols, rows[|rows| - 1], floatRepr, parseFloat);
    }
  }

  /** A part whose number no row gives is left as it was; every part a row gives has its
      coverage recomputed. */
  lemma {:induction false} SeedTouches(st: SeedState, fields: seq<(string, string)>, cols: seq<string>, rows: seq<seq<string>>,
                                       floatRepr: real -> string, parseFloat: string -> Option<real>)
    ensures var r := SeedRows(st, fields, cols, rows, floatRepr, parseFloat);
            var touched := PartNumbers(fields, cols, rows, floatRepr, parseFloat);
            && (forall q :: q in st.parts && q !in touched ==> q in r.parts && r.parts[q] == st.parts[q])
            && (forall q :: q in touched ==> q in r.parts && Recomputed(r.parts[q]))
  {
    if rows != [] {
      var init := rows[..|rows| - 1];
      SeedTouches(st, fields, cols, init, floatRepr, parseFloat);
      SeedKeys(st, fields, cols, init, floatRepr, parseFloat);
      SeedRowEffect(SeedRows(st, fields, cols, init, floatRepr, parseFloat), fields, cols, rows[|rows| - 1], floatRepr, parseFloat);
    }
  }

  /** The loop body. */
  method SeedStep(st: SeedState, fields: seq<(string, string)>, cols: seq<string>, cells: seq<string>,
                  floatRepr: real -> string, parseFloat: string -> Option<real>) returns (r: SeedState)
    ensures r == SeedRow(st, fields, cols, cells, floatRepr, parseFloat)
  {
    var payload, notesExtra := BuildPayload(fields, cols, cells, floatRepr, parseFloat);
    var pn := PartNumberOf(payload);
    if pn.None? {
      return st.(skipped := st.skipped + 1);
    }
    payload := MergeNotes(payload, notesExtra);
    var obj: Models.Row;
    var created, updated := st.created, st.updated;
    if pn.value in st.parts {
      obj := st.parts[pn.value];
      updated := updated + 1;
    } else {
      obj := Models.FreshRow(pn.value);
      created := created + 1;
    }
    obj := ApplyPayload(obj, payload, floatRepr);
    obj := obj.Recomputed();
    r := SeedState(st.parts[pn.value := obj], created, updated, st.skipped);
  }

  /** Seeding one more row of the sheet. */
  lemma SeedRowsSnoc(st: SeedState, fields: seq<(string, string)>, cols: seq<string>, rows: seq<seq<string>>, i: nat,
                     floatRepr: real -> string, parseFloat: string -> Option<real>)
    requires i < |rows|
    ensures SeedRows(st, fields, cols, rows[..i + 1], floatRepr, parseFloat)
            == SeedRow(SeedRows(st, fields, cols, rows[..i], floatRepr, parseFloat), fields, cols, rows[i], floatRepr, parseFloat)
  {
    assert rows[..i + 1][..i] == rows[..i];
  }

  /** `main()` of seed_bom_drom_tsv.py:83-144 on a sheet and the stored table: the headers are
      normalised and every row is seeded in turn. */
  method Seed(frame: Frame, parts: map<string, Models.Row>, floatRepr: real -> string, parseFloat: string -> Option<real>)
    returns (st: SeedState)
    ensures st == SeedRows(SeedState(parts, 0, 0, 0), FieldMap, NormalizeColumns(frame.header), frame.rows, floatRepr, parseFloat)
  {
    var cols := NormalizeColumns(frame.header);
    st := SeedState(parts, 0, 0, 0);
    for i := 0 to |frame.rows|
      invariant st == SeedRows(SeedState(parts, 0, 0, 0), FieldMap, cols, frame.rows[..i], floatRepr, parseFloat)
    {
      SeedRowsSnoc(SeedState(parts, 0, 0, 0), FieldMap, cols, frame.rows, i, floatRepr, parseFloat);
      st := SeedStep(st, FieldMap, cols, frame.rows[i], floatRepr, parseFloat);
    }
    assert frame.rows[..|frame.rows|] == frame.rows;
  }
}
