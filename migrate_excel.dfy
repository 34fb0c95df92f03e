/** The pure part of migrate_excel_data.py: header normalisation and the header-to-canonical
    mapping, the cell normalisers `clean_text` and `to_number`, the derived `coverage_lrvs` and
    `qty_short_for_233` columns, and the records the importer prepares for the upsert. */
module MigrateExcel {
  import opened Wrappers
  import opened PyText
  import opened Numerals
  import Models

  const Nbsp: char := '\U{A0}'

  // ---------------------------------------------------------------------------------------
  // Header normalisation

  /** Every whitespace character is a plain space. */
  predicate SpacesArePlain(s: string) {
    forall k :: 0 <= k < |s| && IsSpace(s[k]) ==> s[k] == ' '
  }

  /** No two whitespace characters in a row. */
  predicate NoDoubleSpace(s: string) {
    forall k :: 0 <= k < |s| - 1 ==> !(IsSpace(s[k]) && IsSpace(s[k + 1]))
  }

  /** `re.sub(r"\s+", " ", s)`: every run of whitespace becomes one space. */
  function CollapseSpaces(s: string): (r: string)
    ensures |r| <= |s|
    ensures s != [] ==> r != [] && r[0] == if IsSpace(s[0]) then ' ' else s[0]
  {
    if s == [] then []
    else if IsSpace(s[0]) then
      if |s| > 1 && IsSpace(s[1]) then CollapseSpaces(s[1..]) else [' '] + CollapseSpaces(s[1..])
    else [s[0]] + CollapseSpaces(s[1..])
  }

  /** The collapsed text has only plain spaces, never two in a row. */
  lemma {:induction false} CollapseSpacesShape(s: string)
    ensures SpacesArePlain(CollapseSpaces(s)) && NoDoubleSpace(CollapseSpaces(s))
  {
    if s != [] {
      var t := CollapseSpaces(s[1..]);
      CollapseSpacesShape(s[1..]);
      if !(IsSpace(s[0]) && |s| > 1 && IsSpace(s[1])) {
        var r := [if IsSpace(s[0]) then ' ' else s[0]] + t;
        assert CollapseSpaces(s) == r;
        forall k | 0 <= k < |r| - 1
          ensures !(IsSpace(r[k]) && IsSpace(r[k + 1]))
        {
          if k > 0 {
            assert r[k] == t[k - 1] && r[k + 1] == t[k];
          }
        }
        forall k | 0 <= k < |r| && IsSpace(r[k])
          ensures r[k] == ' '
        {
          if k > 0 {
            assert r[k] == t[k - 1];
          }
        }
      }
    }
  }

  /** Text with only plain spaces, never two in a row, is its own collapse. */
  lemma {:induction false} CollapseOfCollapsed(s: string)
    requires SpacesArePlain(s) && NoDoubleSpace(s)
    ensures CollapseSpaces(s) == s
  {
    if s != [] {
      var t := s[1..];
      assert SpacesArePlain(t) by {
        forall k | 0 <= k < |t| && IsSpace(t[k])
          ensures t[k] == ' '
        {
          assert t[k] == s[k + 1];
        }
      }
      assert NoDoubleSpace(t) by {
        forall k | 0 <= k < |t| - 1
          ensures !(IsSpace(t[k]) && IsSpace(t[k + 1]))
        {
          assert t[k] == s[k + 1] && t[k + 1] == s[k + 2];
        }
      }
      CollapseOfCollapsed(t);
      assert s == [s[0]] + t;
    }
  }

  /** A piece of a text keeps both properties. */
  lemma SliceKeepsShape(s: string, i: nat, j: nat)
    requires i <= j <= |s| && SpacesArePlain(s) && NoDoubleSpace(s)
    ensures SpacesArePlain(s[i..j]) && NoDoubleSpace(s[i..j])
  {
    var t := s[i..j];
    forall k | 0 <= k < |t| - 1
      ensures !(IsSpace(t[k]) && IsSpace(t[k + 1]))
    {
      assert t[k] == s[i + k] && t[k + 1] == s[i + k + 1];
    }
    forall k | 0 <= k < |t| && IsSpace(t[k])
      ensures t[k] == ' '
    {
      assert t[k] == s[i + k];
    }
  }

  /** Stripping keeps both properties. */
  lemma StripKeepsShape(s: string)
    requires SpacesArePlain(s) && NoDoubleSpace(s)
    ensures SpacesArePlain(Strip(s)) && NoDoubleSpace(Strip(s))
  {
    StripTrims(s);
    var i := StripStart(s);
    SliceKeepsShape(s, i, i + |Strip(s)|);
  }

  /** The four replacements before the collapse. */
  function ReplaceBreaks(s: string): (r: string)
    ensures |r| == |s|
  {
    ReplaceChar(ReplaceChar(ReplaceChar(ReplaceChar(s, Nbsp, ' '), '\r', ' '), '\n', ' '), '\t', ' ')
  }

  /** `normalize_header_name(name)` (migrate_excel_data.py:53-66): a missing header is `""`;
      otherwise non-breaking spaces, carriage returns, newlines and tabs become spaces, every
      run of whitespace becomes one space, and the ends are stripped. */
  function NormalizeHeaderName(name: Option<string>): (r: string)
    ensures name.None? ==> r == ""
    ensures name.Some? ==> |r| <= |name.value| && Stripped(r)
  {
    match name
    case None => ""
    case Some(n) => Strip(CollapseSpaces(ReplaceBreaks(n)))
  }

  /** None of the characters the header normaliser replaces. */
  predicate NoBreaks(s: string) {
    forall k :: 0 <= k < |s| ==> s[k] != Nbsp && s[k] != '\r' && s[k] != '\n' && s[k] != '\t'
  }

  /** What a normalised header looks like: no non-breaking space, carriage return, newline or
      tab, nothing to strip at either end, and no run of two whitespace characters. */
  lemma NormalizedHeaderShape(name: Option<string>)
    ensures var r := NormalizeHeaderName(name);
            NoBreaks(r) && Stripped(r) && NoDoubleSpace(r) && SpacesArePlain(r)
  {
    if name.Some? {
      var c := CollapseSpaces(ReplaceBreaks(name.value));
      CollapseSpacesShape(ReplaceBreaks(name.value));
      StripKeepsShape(c);
    }
  }

  /** `str.replace` of a character that does not occur changes nothing. */
  lemma ReplaceAbsent(s: string, a: char, b: char)
    requires forall k :: 0 <= k < |s| ==> s[k] != a
    ensures ReplaceChar(s, a, b) == s
  {
    ReplaceCharSpec(s, a, b);
  }

  /** Normalising a normalised header changes nothing. */
  lemma NormalizeHeaderIdempotent(name: Option<string>)
    ensures NormalizeHeaderName(Some(NormalizeHeaderName(name))) == NormalizeHeaderName(name)
  {
    var r := NormalizeHeaderName(name);
    NormalizedHeaderShape(name);
    ReplaceAbsent(r, Nbsp, ' ');
    ReplaceAbsent(r, '\r', ' ');
    ReplaceAbsent(r, '\n', ' ');
    ReplaceAbsent(r, '\t', ' ');
    assert ReplaceBreaks(r) == r;
    CollapseOfCollapsed(r);
    StripOfStripped(r);
  }

  // ---------------------------------------------------------------------------------------
  // The tolerant comparison key

  /** The characters `[a-z0-9]`. */
  predicate IsLowerAlnum(c: char) {
    'a' <= c <= 'z' || '0' <= c <= '9'
  }

  /** `re.sub(r"[^a-z0-9]+", " ", s)`: every run of other characters becomes one space. */
  function SquashOthers(s: string): (r: string)
    ensures forall k :: 0 <= k < |r| ==> IsLowerAlnum(r[k]) || r[k] == ' '
  {
    if s == [] then []
    else if !IsLowerAlnum(s[0]) then
      if |s| > 1 && !IsLowerAlnum(s[1]) then SquashOthers(s[1..]) else [' '] + SquashOthers(s[1..])
    else [s[0]] + SquashOthers(s[1..])
  }

  /** `simplify(s)` (migrate_excel_data.py:86-90): lower-cased, every run of characters other
      than `[a-z0-9]` made one space, whitespace runs collapsed, the ends stripped. */
  function Simplify(s: string): string {
    Strip(CollapseSpaces(SquashOthers(Lower(s))))
  }

  /** The tolerant key does not see letter case. */
  lemma SimplifyIgnoresCase(s: string)
    ensures Simplify(Upper(s)) == Simplify(s)
  {
    var u, l := Lower(Upper(s)), Lower(s);
    UpperSpec(s);
    LowerSpec(Upper(s));
    LowerSpec(s);
    forall k | 0 <= k < |s|
      ensures u[k] == l[k]
    {
      LowerOfUpperChar(s[k]);
    }
    assert u == l;
  }

  lemma LowerOfUpperChar(c: char)
    ensures LowerChar(UpperChar(c)) == LowerChar(c)
  {
  }

  // ---------------------------------------------------------------------------------------
  // Mapping the found headers to the canonical ones

  /** EXPECTED_COLUMNS (migrate_excel_data.py:17-34). */
  const ExpectedColumns: seq<string> := [
    "Part Number", "Part Name", "Supplier", "Description", "Type", "Qty Needed Per LRV",
    "Total needed for 233 LRV", "Total quantity received by store",
    "Quantity shipped out by store", "Quantity currently in stock at store",
    "Quantity Back Ordered", "Back Order Delivery Info", "Notes", "Stock for Number of Trains",
    "No. of Trains Next Delivery", "Qty Required for # More Trains"]

  /** The keys of `norm_found`: the found columns, each once, in the order first seen. */
  function Distinct(xs: seq<string>): (r: seq<string>)
    ensures forall x :: x in r <==> x in xs
  {
    if xs == [] then []
    else
      var init := Distinct(xs[..|xs| - 1]);
      assert xs == xs[..|xs| - 1] + [xs[|xs| - 1]];
      if xs[|xs| - 1] in init then init else init + [xs[|xs| - 1]]
  }

  /** The values of `norm_found`, column by column. */
  function Norms(cols: seq<string>): (r: seq<string>)
    ensures |r| == |cols|
  {
    if cols == [] then [] else [NormalizeHeaderName(Some(cols[0]))] + Norms(cols[1..])
  }

  lemma {:induction false} NormsAt(cols: seq<string>, k: nat)
    requires k < |cols|
    ensures Norms(cols)[k] == NormalizeHeaderName(Some(cols[k]))
  {
    if k > 0 {
      NormsAt(cols[1..], k - 1);
    }
  }

  /** The tolerant keys `simplify(norm)`, column by column. */
  function SimplifyAll(xs: seq<string>): (r: seq<string>)
    ensures |r| == |xs|
  {
    if xs == [] then [] else [Simplify(xs[0])] + SimplifyAll(xs[1..])
  }

  lemma {:induction false} SimplifyAllAt(xs: seq<string>, k: nat)
    requires k < |xs|
    ensures SimplifyAll(xs)[k] == Simplify(xs[k])
  {
    if k > 0 {
      SimplifyAllAt(xs[1..], k - 1);
    }
  }

  /** `reverse_norm[x]`: the last position holding `x`, since later entries of the
      comprehension overwrite earlier ones. */
  function LastIndex(xs: seq<string>, x: string): (r: Option<nat>)
    ensures r.Some? ==> r.value < |xs| && xs[r.value] == x
    ensures r.Some? ==> forall k :: r.value < k < |xs| ==> xs[k] != x
    ensures r.None? <==> x !in xs
  {
    if xs == [] then None
    else if xs[|xs| - 1] == x then Some(|xs| - 1)
    else
      assert xs == xs[..|xs| - 1] + [xs[|xs| - 1]];
      LastIndex(xs[..|xs| - 1], x)
  }

  /** `candidates[0]`: the first position, from `i` on, holding `x`. */
  function FirstIndex(xs: seq<string>, x: string, i: nat): (r: Option<nat>)
    requires i <= |xs|
    ensures r.Some? ==> i <= r.value < |xs| && xs[r.value] == x
    ensures r.Some? ==> forall k :: i <= k < r.value ==> xs[k] != x
    ensures r.None? <==> forall k :: i <= k < |xs| ==> xs[k] != x
    decreases |xs| - i
  {
    if i == |xs| then None
    else if xs[i] == x then Some(i)
    else FirstIndex(xs, x, i + 1)
  }

  /** The column chosen for a name among `cols`, given each column's normalised name `norms`
      and tolerant key `keys`, and the name's own tolerant key `key`: the last column whose
      normalised name is the name itself if there is one, else the first column with the same
      key, else none. */
  function Pick(cols: seq<string>, norms: seq<string>, keys: seq<string>, expected: string, key: string): (r: Option<string>)
    requires |norms| == |cols| && |keys| == |cols|
  {
    match LastIndex(norms, expected)
    case Some(i) => Some(cols[i])
    case None =>
      match FirstIndex(keys, key, 0)
      case Some(i) => Some(cols[i])
      case None => None
  }

  /** The exact match wins: when some column's normalised name is the name, the column chosen
      has that normalised name. Otherwise a column is chosen exactly when one has the same key,
      and it is the first such column. */
  lemma PickSpec(cols: seq<string>, norms: seq<string>, keys: seq<string>, expected: string, key: string)
    requires |norms| == |cols| && |keys| == |cols|
    ensures var r := Pick(cols, norms, keys, expected, key);
            && (expected in norms ==> exists k :: 0 <= k < |cols| && norms[k] == expected && r == Some(cols[k]))
            && (expected !in norms ==>
                  && (r.Some? <==> key in keys)
                  && (r.Some? ==> exists k :: 0 <= k < |cols| && keys[k] == key && r == Some(cols[k])
                                     && forall j :: 0 <= j < k ==> keys[j] != key))
  {
    if expected !in norms {
      var t := FirstIndex(keys, key, 0);
      if key in keys {
        var k :| 0 <= k < |keys| && keys[k] == key;
      }
    }
  }

  /** The column `build_header_map` maps to `expected` (migrate_excel_data.py:73-97), among
      the found columns in the order first seen. */
  function Choose(found: seq<string>, expected: string): (r: Option<string>)
    ensures r.Some? ==> r.value in found
  {
    var cols := Distinct(found);
    var norms := Norms(cols);
    Pick(cols, norms, SimplifyAll(norms), expected, Simplify(expected))
  }

  /** The exact match wins: when some found column normalises to `expected`, a column is
      chosen, and it normalises to `expected`. */
  lemma ChooseExact(found: seq<string>, expected: string, c: string)
    requires c in found && NormalizeHeaderName(Some(c)) == expected
    ensures Choose(found, expected).Some?
    ensures NormalizeHeaderName(Some(Choose(found, expected).value)) == expected
  {
    var cols := Distinct(found);
    var norms := Norms(cols);
    var keys := SimplifyAll(norms);
    PickSpec(cols, norms, keys, expected, Simplify(expected));
    var k :| 0 <= k < |cols| && cols[k] == c;
    NormsAt(cols, k);
    assert norms[k] == expected;
    var j :| 0 <= j < |cols| && norms[j] == expected && Choose(found, expected) == Some(cols[j]);
    NormsAt(cols, j);
  }

  /** Without an exact match, `expected` is none of the normalised names. */
  lemma NotAmongNorms(found: seq<string>, expected: string)
    requires forall c :: c in found ==> NormalizeHeaderName(Some(c)) != expected
    ensures expected !in Norms(Distinct(found))
  {
    var cols := Distinct(found);
    var norms := Norms(cols);
    forall k | 0 <= k < |norms|
      ensures norms[k] != expected
    {
      assert cols[k] in found;
      NormsAt(cols, k);
    }
  }

  /** Without an exact match, the column chosen has the same tolerant key as `expected`. */
  lemma ChooseTolerant(found: seq<string>, expected: string)
    requires forall c :: c in found ==> NormalizeHeaderName(Some(c)) != expected
    ensures Choose(found, expected).Some? ==>
              Simplify(NormalizeHeaderName(Some(Choose(found, expected).value))) == Simplify(expected)
  {
    var cols := Distinct(found);
    var norms := Norms(cols);
    var keys := SimplifyAll(norms);
    NotAmongNorms(found, expected);
    PickSpec(cols, norms, keys, expected, Simplify(expected));
    if Choose(found, expected).Some? {
      var k :| 0 <= k < |cols| && keys[k] == Simplify(expected) && Choose(found, expected) == Some(cols[k]);
      NormsAt(cols, k);
      SimplifyAllAt(norms, k);
    }
  }

  /** Without an exact match, any column with the same tolerant key means a column is chosen:
      a name goes missing only when no column matches it either way. */
  lemma ChooseTolerantFound(found: seq<string>, expected: string, c: string)
    requires forall c :: c in found ==> NormalizeHeaderName(Some(c)) != expected
    requires c in found && Simplify(NormalizeHeaderName(Some(c))) == Simplify(expected)
    ensures Choose(found, expected).Some?
  {
    var cols := Distinct(found);
    var norms := Norms(cols);
    var keys := SimplifyAll(norms);
    NotAmongNorms(found, expected);
    PickSpec(cols, norms, keys, expected, Simplify(expected));
    var k :| 0 <= k < |cols| && cols[k] == c;
    NormsAt(cols, k);
    SimplifyAllAt(norms, k);
  }

  /** The `mapping` and `missing` that the loop over `expecteds` builds, given the column each
      expected name chose. A column chosen twice ends up mapped to the later name. */
  function Assign(expecteds: seq<string>, chosen: seq<Option<string>>): (map<string, string>, seq<string>)
    requires |chosen| == |expecteds|
  {
    if expecteds == [] then (map[], [])
    else
      var n := |expecteds| - 1;
      var (mapping, missing) := Assign(expecteds[..n], chosen[..n]);
      match chosen[n]
      case Some(orig) => (mapping[orig := expecteds[n]], missing)
      case None => (mapping, missing + [expecteds[n]])
  }

  /** The missing list holds exactly the names that chose nothing; every mapped column was
      chosen by the name it maps to; every chosen column is mapped. */
  lemma {:induction false} AssignSpec(expecteds: seq<string>, chosen: seq<Option<string>>)
    requires |chosen| == |expecteds|
    ensures var (mapping, missing) := Assign(expecteds, chosen);
            && |missing| <= |expecteds|
            && (forall e :: e in missing ==> exists k :: 0 <= k < |expecteds| && expecteds[k] == e && chosen[k].None?)
            && (forall k :: 0 <= k < |expecteds| && chosen[k].None? ==> expecteds[k] in missing)
            && (forall c :: c in mapping ==> exists k :: 0 <= k < |expecteds| && chosen[k] == Some(c) && expecteds[k] == mapping[c])
            && (forall k :: 0 <= k < |expecteds| && chosen[k].Some? ==> chosen[k].value in mapping)
  {
    if expecteds != [] {
      var n := |expecteds| - 1;
      AssignSpec(expecteds[..n], chosen[..n]);
      var (mapping, missing) := Assign(expecteds[..n], chosen[..n]);
      assert forall k :: 0 <= k < n ==> expecteds[..n][k] == expecteds[k] && chosen[..n][k] == chosen[k];
    }
  }

  /** What each expected name chooses among the found columns. */
  function Choices(found: seq<string>, expecteds: seq<string>): (r: seq<Option<string>>)
    ensures |r| == |expecteds|
  {
    if expecteds == [] then [] else [Choose(found, expecteds[0])] + Choices(found, expecteds[1..])
  }

  lemma {:induction false} ChoicesAt(found: seq<string>, expecteds: seq<string>, k: nat)
    requires k < |expecteds|
    ensures Choices(found, expecteds)[k] == Choose(found, expecteds[k])
  {
    if k > 0 {
      ChoicesAt(found, expecteds[1..], k - 1);
    }
  }

  lemma ChoicesSpec(found: seq<string>, expecteds: seq<string>)
    ensures forall k :: 0 <= k < |expecteds| ==> Choices(found, expecteds)[k] == Choose(found, expecteds[k])
  {
    forall k | 0 <= k < |expecteds| {
      ChoicesAt(found, expecteds, k);
    }
  }

  /** One more name: `Assign` over a longer prefix is one step of the loop. */
  lemma AssignStep(expecteds: seq<string>, chosen: seq<Option<string>>, n: nat)
    requires |chosen| == |expecteds| && n < |expecteds|
    ensures var (mapping, missing) := Assign(expecteds[..n], chosen[..n]);
            Assign(expecteds[..n + 1], chosen[..n + 1]) ==
              match chosen[n]
              case Some(orig) => (mapping[orig := expecteds[n]], missing)
              case None => (mapping, missing + [expecteds[n]])
  {
    assert expecteds[..n + 1][..n] == expecteds[..n];
    assert chosen[..n + 1][..n] == chosen[..n];
  }

  /** What `build_header_map` returns or raises: the mapping, or the list of missing columns
      that the `ValueError` reports. */
  function HeaderMapResult(found: seq<string>, expecteds: seq<string>): Result<map<string, string>, seq<string>> {
    var (mapping, missing) := Assign(expecteds, Choices(found, expecteds));
    if missing != [] then Failure(missing) else Success(mapping)
  }

  /** The loop of `build_header_map` (migrate_excel_data.py:73-105) over the names
      `expecteds`: `norm_found` and the tolerant keys are computed once, then each name takes
      its column. */
  method MapHeaders(found: seq<string>, expecteds: seq<string>) returns (r: Result<map<string, string>, seq<string>>)
    ensures r == HeaderMapResult(found, expecteds)
  {
    var cols := Distinct(found);
    var norms := Norms(cols);
    var keys := SimplifyAll(norms);
    ghost var chosen := Choices(found, expecteds);
    var mapping: map<string, string> := map[];
    var missing: seq<string> := [];
    for n := 0 to |expecteds|
      invariant (mapping, missing) == Assign(expecteds[..n], chosen[..n])
    {
      var expected := expecteds[n];
      var choice := Pick(cols, norms, keys, expected, Simplify(expected));
      ChoicesAt(found, expecteds, n);
      AssignStep(expecteds, chosen, n);
      match choice {
        case Some(orig) => mapping := mapping[orig := expected];
        case None => missing := missing + [expected];
      }
    }
    assert expecteds[..|expecteds|] == expecteds;
    assert chosen[..|expecteds|] == chosen;
    if missing != [] {
      r := Failure(missing);
    } else {
      r := Success(mapping);
    }
  }

  /** `build_header_map(found_cols)` (migrate_excel_data.py:68-105), over EXPECTED_COLUMNS. */
  method BuildHeaderMap(found: seq<string>) returns (r: Result<map<string, string>, seq<string>>)
    ensures r == HeaderMapResult(found, ExpectedColumns)
  {
    r := MapHeaders(found, ExpectedColumns);
  }

  /** `build_header_map` fails exactly when some expected name has no matching column, and it
      then reports exactly those names. */
  lemma HeaderMapFailsIff(found: seq<string>, expecteds: seq<string>)
    ensures HeaderMapResult(found, expecteds).Success? <==>
              forall e :: e in expecteds ==> Choose(found, e).Some?
    ensures HeaderMapResult(found, expecteds).Failure? ==>
              forall e :: e in HeaderMapResult(found, expecteds).error <==>
                            e in expecteds && Choose(found, e).None?
  {
    var chosen := Choices(found, expecteds);
    ChoicesSpec(found, expecteds);
    AssignSpec(expecteds, chosen);
    var missing := Assign(expecteds, chosen).1;
    if missing != [] {
      assert missing[0] in missing;
    }
  }

  /** On success every expected name's column is mapped, and every mapped column is the
      choice of the name it maps to (a column chosen by two names maps to the later one). */
  lemma HeaderMapSound(found: seq<string>, expecteds: seq<string>)
    requires HeaderMapResult(found, expecteds).Success?
    ensures var mapping := HeaderMapResult(found, expecteds).value;
            && (forall e :: e in expecteds ==> Choose(found, e).Some? && Choose(found, e).value in mapping)
            && (forall c :: c in mapping ==> mapping[c] in expecteds && Choose(found, mapping[c]) == Some(c))
  {
    var chosen := Choices(found, expecteds);
    ChoicesSpec(found, expecteds);
    AssignSpec(expecteds, chosen);
  }

  // ---------------------------------------------------------------------------------------
  // Cell values

  /** A spreadsheet cell as pandas hands it over: empty, a boolean, an integer, a float, a
      float NaN, or text. */
  datatype Cell = Null | Bool(b: bool) | Int(i: int) | Float(x: real) | NaN | Str(s: string)

  /** `str(val)`. How a float prints is `floatRepr`, a parameter of the model. */
  function CellText(val: Cell, floatRepr: real -> string): string {
    match val
    case Null => "None"
    case Bool(b) => if b then "True" else "False"
    case Int(i) => IntToDecimal(i)
    case Float(x) => floatRepr(x)
    case NaN => "nan"
    case Str(s) => s
  }

  /** NA_TOKENS (migrate_excel_data.py:48). */
  const NaTokens: set<string> := {"N/A", "NA", "#N/A", "NONE", "NULL", "\U{2014}", "-", "--"}

  /** No character of `s` is a digit. */
  predicate NoDigit(s: string) {
    forall k :: 0 <= k < |s| ==> !IsDigit(s[k])
  }

  /** `clean_text(val)` (migrate_excel_data.py:110-116): non-breaking spaces become spaces, the
      text is stripped, and an empty result or, in upper case, an NA token is `None`. */
  function CleanText(val: Cell, floatRepr: real -> string): (r: Option<string>)
    ensures val.Null? ==> r.None?
  {
    if val.Null? then None
    else
      var s := Strip(ReplaceChar(CellText(val, floatRepr), Nbsp, ' '));
      if s == "" || Upper(s) in NaTokens then None else Some(s)
  }

  /** What `clean_text` gives back is never empty, has nothing to strip, is no NA token in any
      letter case and has no non-breaking space left. */
  lemma CleanTextShape(val: Cell, floatRepr: real -> string)
    requires CleanText(val, floatRepr).Some?
    ensures var s := CleanText(val, floatRepr).value;
            && s != [] && Stripped(s) && Upper(s) !in NaTokens
            && forall k :: 0 <= k < |s| ==> s[k] != Nbsp
  {
    var t := ReplaceChar(CellText(val, floatRepr), Nbsp, ' ');
    var s := Strip(t);
    ReplaceCharSpec(CellText(val, floatRepr), Nbsp, ' ');
    StripTrims(t);
    assert forall k :: 0 <= k < |s| ==> s[k] == t[StripStart(t) + k];
  }

  /** Cleaning text that `clean_text` produced gives it back. */
  lemma CleanTextIdempotent(val: Cell, floatRepr: real -> string)
    requires CleanText(val, floatRepr).Some?
    ensures CleanText(Str(CleanText(val, floatRepr).value), floatRepr) == CleanText(val, floatRepr)
  {
    var s := CleanText(val, floatRepr).value;
    CleanTextShape(val, floatRepr);
    ReplaceAbsent(s, Nbsp, ' ');
    StripOfStripped(s);
  }

  /** Text that strips to an NA token in any letter case, or to nothing, is `None`. */
  lemma CleanTextDropsNaTokens(s: string, floatRepr: real -> string)
    requires Upper(Strip(ReplaceChar(s, Nbsp, ' '))) in NaTokens || Blank(ReplaceChar(s, Nbsp, ' '))
    ensures CleanText(Str(s), floatRepr) == None
  {
    StripEmptyIff(ReplaceChar(s, Nbsp, ' '));
  }

  /** Text with a digit in it is never an NA token, whatever its letter case. */
  lemma DigitIsNoNaToken(s: string, d: nat)
    requires d < |s| && IsDigit(s[d])
    ensures Upper(s) !in NaTokens
  {
    var u := Upper(s);
    UpperSpec(s);
    assert IsDigit(u[d]);
    NaTokensHaveNoDigit();
  }

  lemma NaTokensHaveNoDigit()
    ensures forall t :: t in NaTokens ==> NoDigit(t)
  {
  }

  /** No whitespace anywhere in `s`. */
  predicate NoSpace(s: string) {
    forall k :: 0 <= k < |s| ==> !IsSpace(s[k])
  }

  /** Text without whitespace that has a digit cleans to itself. */
  lemma CleanTextOfPlain(s: string, d: nat, floatRepr: real -> string)
    requires NoSpace(s) && d < |s| && IsDigit(s[d])
    ensures CleanText(Str(s), floatRepr) == Some(s)
  {
    assert IsSpace(Nbsp);
    ReplaceAbsent(s, Nbsp, ' ');
    StripOfStripped(s);
    DigitIsNoNaToken(s, d);
  }

  /** An integer cell cleans to its decimal text: it has a digit, and no NA token does. */
  lemma CleanTextKeepsIntegers(i: int, floatRepr: real -> string)
    ensures CleanText(Int(i), floatRepr) == Some(IntToDecimal(i))
  {
    var s := IntToDecimal(i);
    assert forall k :: 0 <= k < |s| ==> s[k] == '-' || IsDigit(s[k]);
    assert !IsSpace('-');
    CleanTextOfPlain(s, |s| - 1, floatRepr);
    assert CellText(Int(i), floatRepr) == s;
  }

  /** No whitespace and no comma anywhere in `s`. */
  predicate Compacted(s: string) {
    forall k :: 0 <= k < |s| ==> !IsSpace(s[k]) && s[k] != ','
  }

  /** `re.sub(r"[,\s]", "", s)`: every comma and every whitespace character removed. */
  function Compact(s: string): (r: string)
    ensures Compacted(r) && |r| <= |s|
  {
    if s == [] then []
    else if s[0] == ',' || IsSpace(s[0]) then Compact(s[1..])
    else [s[0]] + Compact(s[1..])
  }

  /** Text without commas or whitespace is left as it is. */
  lemma {:induction false} CompactOfCompacted(s: string)
    requires Compacted(s)
    ensures Compact(s) == s
  {
    if s != [] {
      assert Compacted(s[1..]) by {
        forall k | 0 <= k < |s| - 1
          ensures !IsSpace(s[1..][k]) && s[1..][k] != ','
        {
          assert s[1..][k] == s[k + 1];
        }
      }
      CompactOfCompacted(s[1..]);
      assert s == [s[0]] + s[1..];
    }
  }

  /** Compacting is idempotent. */
  lemma CompactIdempotent(s: string)
    ensures Compact(Compact(s)) == Compact(s)
  {
    CompactOfCompacted(Compact(s));
  }

  /** `to_number(val)` (migrate_excel_data.py:118-140). Booleans, integers and floats are taken
      as numbers and NaN as missing; text is cleaned, stripped of commas and whitespace, and
      read by its leading numeral when it has one. Other text goes to Python's `float()`,
      which is the parameter `parseFloat` (`None` where `float()` raises). */
  function ToNumber(val: Cell, floatRepr: real -> string, parseFloat: string -> Option<real>): (r: Option<real>)
    ensures val.Null? || val.NaN? ==> r.None?
    ensures val.Bool? ==> r == Some(if val.b then 1.0 else 0.0)
    ensures val.Int? ==> r == Some(val.i as real)
    ensures val.Float? ==> r == Some(val.x)
  {
    match val
    case Null => None
    case Bool(b) => Some(if b then 1.0 else 0.0)
    case Int(i) => Some(i as real)
    case Float(x) => Some(x)
    case NaN => None
    case Str(_) => ReadNumber(CleanText(val, floatRepr), parseFloat)
  }

  /** The text branch of `to_number` after `clean_text`: nothing stays nothing; text loses its
      commas and whitespace and is read by its leading numeral, or else by `float()`. */
  function ReadNumber(clean: Option<string>, parseFloat: string -> Option<real>): Option<real> {
    match clean
    case None => None
    case Some(s) =>
      var c := Compact(s);
      match PrefixMatch(c)
      case Some((n, _)) => Some(Value(n))
      case None => parseFloat(c)
  }

  /** Text whose cleaned, compacted form starts with a numeral that the rest does not continue
      reads as that numeral's value: the unit or remark after it is ignored. */
  lemma ToNumberReadsLeadingNumeral(s: string, n: Numeral, rest: string,
                                    floatRepr: real -> string, parseFloat: string -> Option<real>)
    requires CleanText(Str(s), floatRepr).Some?
    requires WellFormed(n) && Stops(n, rest)
    requires Compact(CleanText(Str(s), floatRepr).value) == Numerals.Text(n) + rest
    ensures ToNumber(Str(s), floatRepr, parseFloat) == Some(Value(n))
  {
    ToNumberOfText(s, floatRepr, parseFloat);
    ReadNumberOfNumeral(CleanText(Str(s), floatRepr).value, n, rest, parseFloat);
  }

  /** A text cell is read from its cleaned text. */
  lemma ToNumberOfText(s: string, floatRepr: real -> string, parseFloat: string -> Option<real>)
    ensures ToNumber(Str(s), floatRepr, parseFloat) == ReadNumber(CleanText(Str(s), floatRepr), parseFloat)
  {
  }

  /** Cleaned text that compacts to a numeral and a rest that does not continue it reads as the
      numeral's value. */
  lemma ReadNumberOfNumeral(clean: string, n: Numeral, rest: string, parseFloat: string -> Option<real>)
    requires WellFormed(n) && Stops(n, rest) && Compact(clean) == Numerals.Text(n) + rest
    ensures ReadNumber(Some(clean), parseFloat) == Some(Value(n))
  {
    PrefixMatchOfText(n, rest);
  }

  /** Text that cleans to nothing, an NA token above all, is no number. */
  lemma ToNumberDropsNaTokens(s: string, floatRepr: real -> string, parseFloat: string -> Option<real>)
    requires Upper(Strip(ReplaceChar(s, Nbsp, ' '))) in NaTokens || Blank(ReplaceChar(s, Nbsp, ' '))
    ensures ToNumber(Str(s), floatRepr, parseFloat) == None
  {
    CleanTextDropsNaTokens(s, floatRepr);
    ToNumberOfText(s, floatRepr, parseFloat);
  }

  /** The cell a converted number becomes when the row is read again. */
  function NumberCell(v: Option<real>): Cell {
    match v
    case None => Null
    case Some(x) => Float(x)
  }

  /** Converting a converted value again changes nothing, so `compute_helpers`, which calls
      `to_number` on columns already converted, sees the converted quantities. */
  lemma ToNumberReapplied(v: Option<real>, floatRepr: real -> string, parseFloat: string -> Option<real>)
    ensures ToNumber(NumberCell(v), floatRepr, parseFloat) == v
  {
  }

  // ---------------------------------------------------------------------------------------
  // Derived columns

  /** `compute_helpers(row)` (migrate_excel_data.py:142-155) on the converted quantities: the
      number of LRVs the stock covers, `int(stock // per_lrv)`, when the per-LRV quantity is
      positive and the stock known, and the shortfall against the 233-LRV total,
      `max(0.0, total - stock)`, when both are known. */
  function ComputeHelpers(perLrv: Option<real>, stock: Option<real>, total: Option<real>): (r: (Option<int>, Option<real>))
    ensures r.0.Some? <==> perLrv.Some? && perLrv.value > 0.0 && stock.Some?
    ensures r.1.Some? <==> total.Some? && stock.Some?
  {
    var coverage :=
      if perLrv.Some? && perLrv.value > 0.0 && stock.Some? then Some((stock.value / perLrv.value).Floor)
      else None;
    var short :=
      if total.Some? && stock.Some? then
        Some(if total.value - stock.value > 0.0 then total.value - stock.value else 0.0)
      else None;
    (coverage, short)
  }

  /** The coverage is the largest whole number of LRVs the stock supplies:
      `c * per_lrv <= stock < (c + 1) * per_lrv`. */
  lemma CoverageBracketsStock(perLrv: Option<real>, stock: Option<real>, total: Option<real>)
    requires ComputeHelpers(perLrv, stock, total).0.Some?
    ensures var c := ComputeHelpers(perLrv, stock, total).0.value as real;
            c * perLrv.value <= stock.value < (c + 1.0) * perLrv.value
  {
    var q, x := perLrv.value, stock.value;
    var f := (x / q).Floor;
    Models.ScaleBracket(f as real, x / q, q, x);
  }

  /** The shortfall is never negative, is zero exactly when the stock meets the total, and
      otherwise makes up the difference. */
  lemma ShortfallSpec(perLrv: Option<real>, stock: Option<real>, total: Option<real>)
    requires ComputeHelpers(perLrv, stock, total).1.Some?
    ensures var s := ComputeHelpers(perLrv, stock, total).1.value;
            && s >= 0.0 && s >= total.value - stock.value
            && (s == 0.0 <==> total.value <= stock.value)
            && (s > 0.0 ==> stock.value + s == total.value)
  {
  }

  // ---------------------------------------------------------------------------------------
  // Records

  /** NUMERIC_COLUMNS (migrate_excel_data.py:36-46), in the order the record lists them. */
  const NumericColumns: seq<string> := [
    "Qty Needed Per LRV", "Total needed for 233 LRV", "Total quantity received by store",
    "Quantity shipped out by store", "Quantity currently in stock at store",
    "Quantity Back Ordered", "Stock for Number of Trains", "No. of Trains Next Delivery",
    "Qty Required for # More Trains"]

  /** The text columns the record copies, in record order (migrate_excel_data.py:291-303). */
  const TextColumns: seq<string> := [
    "Part Name", "Supplier", "Description", "Type", "Back Order Delivery Info", "Notes"]

  /** A sheet row after the renaming: cells by canonical column name. */
  type SheetRow = map<string, Cell>

  /** A row after the column conversion: the text and the numeric values present. A column
      that is absent and one whose value converted to `None` read alike, as `row.get` gives
      `None` for both. */
  datatype Converted = Converted(text: map<string, string>, number: map<string, real>)

  /** The per-column conversion of `main` (migrate_excel_data.py:265-269): numeric columns go
      through `to_number`, every other column through `clean_text`. */
  function ConvertRow(row: SheetRow, floatRepr: real -> string, parseFloat: string -> Option<real>): (r: Converted)
    ensures forall c :: c in r.text ==> c in row && c !in NumericColumns
    ensures forall c :: c in r.number ==> c in row && c in NumericColumns
  {
    Converted(
      map c | c in row && c !in NumericColumns && CleanText(row[c], floatRepr).Some? :: CleanText(row[c], floatRepr).value,
      map c | c in row && c in NumericColumns && ToNumber(row[c], floatRepr, parseFloat).Some? ::
        ToNumber(row[c], floatRepr, parseFloat).value)
  }

  /** `row.get(column)` for a text column. */
  function TextAt(row: Converted, column: string): Option<string> {
    if column in row.text then Some(row.text[column]) else None
  }

  /** `row.get(column)` for a numeric column. */
  function NumberAt(row: Converted, column: string): Option<real> {
    if column in row.number then Some(row.number[column]) else None
  }

  /** What the record reads from a converted row is the cleaned text of a text column and the
      number of a numeric column, and nothing for a column the sheet lacks. */
  lemma ConvertRowReads(row: SheetRow, column: string, floatRepr: real -> string, parseFloat: string -> Option<real>)
    ensures column !in NumericColumns ==>
              TextAt(ConvertRow(row, floatRepr, parseFloat), column) ==
                (if column in row then CleanText(row[column], floatRepr) else None)
    ensures column in NumericColumns ==>
              NumberAt(ConvertRow(row, floatRepr, parseFloat), column) ==
                (if column in row then ToNumber(row[column], floatRepr, parseFloat) else None)
  {
  }

  /** The record prepared for one part: its part number, the text columns, the numeric
      columns, `coverage_lrvs` and `qty_short_for_233`. */
  datatype Record = Record(partNumber: string, texts: seq<Option<string>>, numbers: seq<Option<real>>,
                           coverageLrvs: Option<int>, qtyShortFor233: Option<real>)

  /** The record `main` builds from a converted row (migrate_excel_data.py:284-315), or none
      when the row has no part number. */
  function RecordOf(row: Converted): (r: Option<Record>)
    ensures r.Some? <==> TextAt(row, "Part Number").Some?
    ensures r.Some? ==> && r.value.partNumber == TextAt(row, "Part Number").value
                        && |r.value.texts| == |TextColumns| && |r.value.numbers| == |NumericColumns|
  {
    match TextAt(row, "Part Number")
    case None => None
    case Some(part) =>
      var texts := seq(|TextColumns|, k requires 0 <= k < |TextColumns| => TextAt(row, TextColumns[k]));
      var numbers := seq(|NumericColumns|, k requires 0 <= k < |NumericColumns| => NumberAt(row, NumericColumns[k]));
      var (coverage, short) := ComputeHelpers(numbers[0], numbers[4], numbers[1]);
      Some(Record(part, texts, numbers, coverage, short))
  }

  /** A converted part number is never empty and never padded. */
  lemma PartNumberClean(row: SheetRow, floatRepr: real -> string, parseFloat: string -> Option<real>)
    requires RecordOf(ConvertRow(row, floatRepr, parseFloat)).Some?
    ensures var p := RecordOf(ConvertRow(row, floatRepr, parseFloat)).value.partNumber;
            p != [] && Stripped(p) && Upper(p) !in NaTokens
  {
    ConvertRowReads(row, "Part Number", floatRepr, parseFloat);
    CleanTextShape(row["Part Number"], floatRepr);
  }

  /** The derived columns of a record are those of its own quantities: the coverage brackets
      the stock by the per-LRV quantity, and the shortfall is the missing part of the
      233-LRV total. */
  lemma RecordHelpersAgree(row: Converted)
    requires RecordOf(row).Some?
    ensures var r := RecordOf(row).value;
            var perLrv, stock, total := r.numbers[0], r.numbers[4], r.numbers[1];
            && (r.coverageLrvs.Some? <==> perLrv.Some? && perLrv.value > 0.0 && stock.Some?)
            && (r.coverageLrvs.Some? ==>
                  r.coverageLrvs.value as real * perLrv.value <= stock.value
                  < (r.coverageLrvs.value as real + 1.0) * perLrv.value)
            && (r.qtyShortFor233.Some? <==> total.Some? && stock.Some?)
            && (r.qtyShortFor233.Some? ==>
                  r.qtyShortFor233.value >= 0.0 && (r.qtyShortFor233.value == 0.0 <==> total.value <= stock.value))
  {
    var r := RecordOf(row).value;
    var perLrv, stock, total := r.numbers[0], r.numbers[4], r.numbers[1];
    assert (r.coverageLrvs, r.qtyShortFor233) == ComputeHelpers(perLrv, stock, total);
    if r.coverageLrvs.Some? {
      CoverageBracketsStock(perLrv, stock, total);
    }
    if r.qtyShortFor233.Some? {
      ShortfallSpec(perLrv, stock, total);
    }
  }

  /** The records `main` prepares from the rows, in row order. */
  function RecordsOf(rows: seq<Converted>): seq<Record> {
    if rows == [] then []
    else
      var init := RecordsOf(rows[..|rows| - 1]);
      match RecordOf(rows[|rows| - 1])
      case None => init
      case Some(r) => init + [r]
  }

  /** The record loop of `main` (migrate_excel_data.py:283-315). */
  method BuildRecords(rows: seq<Converted>) returns (records: seq<Record>)
    ensures records == RecordsOf(rows)
  {
    records := [];
    for n := 0 to |rows|
      invariant records == RecordsOf(rows[..n])
    {
      assert rows[..n + 1][..n] == rows[..n];
      match RecordOf(rows[n]) {
        case None =>
        case Some(r) => records := records + [r];
      }
    }
    assert rows[..|rows|] == rows;
  }

  /** Preparing the records of two batches of rows is preparing each in turn. */
  lemma {:induction false} RecordsOfAppend(a: seq<Converted>, b: seq<Converted>)
    ensures RecordsOf(a + b) == RecordsOf(a) + RecordsOf(b)
  {
    if b != [] {
      var b' := b[..|b| - 1];
      RecordsOfAppend(a, b');
      assert (a + b)[..|a + b| - 1] == a + b';
    } else {
      assert a + b == a;
    }
  }

  /** Every record comes from a row with a part number, and every row with a part number
      gives a record: a row without one is skipped and nothing else is. */
  lemma {:induction false} RecordsOfSpec(rows: seq<Converted>)
    ensures |RecordsOf(rows)| <= |rows|
    ensures forall r :: r in RecordsOf(rows) ==>
              exists k :: 0 <= k < |rows| && RecordOf(rows[k]) == Some(r)
    ensures forall k :: 0 <= k < |rows| && RecordOf(rows[k]).Some? ==>
              RecordOf(rows[k]).value in RecordsOf(rows)
  {
    if rows != [] {
      var init := rows[..|rows| - 1];
      RecordsOfSpec(init);
      assert forall k :: 0 <= k < |init| ==> init[k] == rows[k];
    }
  }
}
