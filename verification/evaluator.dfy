/**
 * The evaluator of `src/evaluator.py`: the value cleaner (`_clean_value`),
 * the unit and currency detector (`_detect_context`), the metric extractor
 * (`_get_metrics`) and the evidence report (`analyze_company`).
 */
module Evaluator {
  import opened Wrappers
  import opened Strings
  import opened Numeral

  // ---------------------------------------------------------------------
  // Canonical files as `pd.read_csv` gives them
  // ---------------------------------------------------------------------

  /** One cell of a canonical CSV file: NaN (an empty field), or its text `str(val)`. */
  datatype CsvCell = NaN | Str(s: string)

  /** What reading one file gives: a failure, or a frame with its `to_string()` rendering. */
  datatype CsvContent =
    | Unreadable
    | Frame(columns: seq<string>, rows: seq<seq<CsvCell>>, rendered: string)

  datatype CsvFile = CsvFile(name: string, content: CsvContent)

  /** `str()` of a cell. */
  function Render(c: CsvCell): string
  {
    match c
    case NaN => "nan"
    case Str(s) => s
  }

  /** Cell `k` of a row; `read_csv` pads short rows with NaN. */
  function At(row: seq<CsvCell>, k: nat): CsvCell
  {
    if k < |row| then row[k] else NaN
  }

  // ---------------------------------------------------------------------
  // _clean_value
  // ---------------------------------------------------------------------

  /** Stripped texts `_clean_value` reads as zero. */
  const ZeroTokens: seq<string> := ["—", "-", "None", "0.0"]

  /** Characters kept after removing '$', ',' and ' '. */
  predicate IsNotSeparator(c: char) { c != '$' && c != ',' && c != ' ' }

  predicate IsNotParen(c: char) { c != '(' && c != ')' }

  /** The characters `[^0-9.\-]` does not delete. */
  predicate IsValueChar(c: char) { IsDigit(c) || c == '.' || c == '-' }

  /** The text `float()` receives, before the empty check. */
  function ValueText(t: string): (s: string)
    ensures forall i :: 0 <= i < |s| ==> IsValueChar(s[i])
  {
    var s := KeepOnly(t, IsNotSeparator);
    var s := if '(' in s && ')' in s then "-" + KeepOnly(s, IsNotParen) else s;
    KeepOnly(s, IsValueChar)
  }

  /**
   * `_clean_value`: missing and zero-like cells give 0; otherwise the number
   * left after deleting currency, separators and parentheses (which negate),
   * or 0 when no number is left. It never yields text.
   */
  function CleanValue(v: CsvCell): (r: real)
    ensures v.NaN? ==> r == 0.0
    ensures v.Str? && (v.s == "" || Trim(v.s) in ZeroTokens) ==> r == 0.0
  {
    match v
    case NaN => 0.0
    case Str(t) =>
      if t == "" || Trim(t) in ZeroTokens then 0.0
      else
        var s := ValueText(t);
        if s == [] then 0.0
        else match ParseDecimal(s)
          case Some(x) => x
          case None => 0.0
  }

  /** Digits, at most one '.', and at most a leading '-': what `float()` reads back unchanged. */
  predicate PlainNumber(d: string)
  {
    ParseDecimal(d).Some? && forall i :: 0 <= i < |d| ==> IsDigit(d[i]) || d[i] == '.' || (i == 0 && d[i] == '-')
  }

  /** `float()` of a text, with the `ValueError` it raises read as 0. */
  function FloatOrZero(s: string): (r: real)
    ensures ParseDecimal(s).Some? ==> r == ParseDecimal(s).value
    ensures ParseDecimal(s).None? ==> r == 0.0
  {
    match ParseDecimal(s)
    case Some(x) => x
    case None => 0.0
  }

  /**
   * What `float()` receives: the digits, points and minus signs of the
   * cell in their order, behind a '-' when the cell holds both '(' and ')'.
   */
  lemma {:induction false} ValueTextForm(t: string)
    ensures ValueText(t) == (if '(' in t && ')' in t then "-" else "") + KeepOnly(t, IsValueChar)
  {
    var s1 := KeepOnly(t, IsNotSeparator);
    KeepOnlyMember(t, IsNotSeparator, '(');
    KeepOnlyMember(t, IsNotSeparator, ')');
    KeepOnlyNarrower(t, IsNotSeparator, IsValueChar);
    if '(' in s1 && ')' in s1 {
      KeepOnlyConcat("-", KeepOnly(s1, IsNotParen), IsValueChar);
      KeepOnlyNarrower(s1, IsNotParen, IsValueChar);
      assert KeepOnly("-", IsValueChar) == "-";
    }
  }

  /** No zero token holds a parenthesis. */
  lemma {:induction false} ZeroTokenNoParens(z: string)
    requires z in ZeroTokens
    ensures '(' !in z || ')' !in z
  {
    assert z == "—" || z == "-" || z == "None" || z == "0.0";
  }

  /** No zero token leaves anything `float()` reads as nonzero. */
  lemma {:induction false} ZeroTokenIsZero(z: string)
    requires z in ZeroTokens
    ensures FloatOrZero(KeepOnly(z, IsValueChar)) == 0.0
  {
    assert z == "—" || z == "-" || z == "None" || z == "0.0";
    if z == "0.0" {
      assert KeepOnly("0.0", IsValueChar) == "0.0";
      ZeroText();
    } else if z == "-" {
      assert KeepOnly("-", IsValueChar) == "-";
      assert FloatOrZero("-") == 0.0;
    } else if z == "None" {
      assert KeepOnly("None", IsValueChar) == "";
      assert FloatOrZero("") == 0.0;
    } else {
      assert KeepOnly("—", IsValueChar) == "";
      assert FloatOrZero("") == 0.0;
    }
  }

  /**
   * `_clean_value` on a present cell is `float()` of the characters the
   * cleaner keeps, or 0 when that fails: the zero-token check never changes
   * the value.
   */
  lemma {:induction false} CleanValueIsFloat(t: string)
    ensures CleanValue(Str(t)) == FloatOrZero((if '(' in t && ')' in t then "-" else "") + KeepOnly(t, IsValueChar))
  {
    ValueTextForm(t);
    if t == "" {
      assert KeepOnly(t, IsValueChar) == "";
    } else if Trim(t) in ZeroTokens {
      ZeroTokenCell(t);
    } else {
      CleanValueParsed(t);
    }
  }

  /** A cell that is a zero token once stripped leaves `float()` nothing nonzero either. */
  lemma {:induction false} ZeroTokenCell(t: string)
    requires Trim(t) in ZeroTokens
    ensures FloatOrZero((if '(' in t && ')' in t then "-" else "") + KeepOnly(t, IsValueChar)) == 0.0
  {
    var k := KeepOnly(t, IsValueChar);
    ValueCharsIgnoreTrim(t);
    ZeroTokenIsZero(Trim(t));
    ZeroTokenNoPair(t);
    assert "" + k == k;
  }

  /** Surrounding whitespace holds no digit, point or minus sign. */
  lemma {:induction false} ValueCharsIgnoreTrim(t: string)
    ensures KeepOnly(t, IsValueChar) == KeepOnly(Trim(t), IsValueChar)
  {
    KeepOnlyTrim(t, IsValueChar);
  }

  /** A cell that is a zero token once stripped holds no pair of parentheses. */
  lemma {:induction false} ZeroTokenNoPair(t: string)
    requires Trim(t) in ZeroTokens
    ensures !('(' in t && ')' in t)
  {
    ZeroTokenNoParens(Trim(t));
    TrimKeepsChar(t, '(');
    TrimKeepsChar(t, ')');
  }

  /** Past the zero-token check, the value is what `float()` makes of the cleaned text. */
  lemma {:induction false} CleanValueParsed(t: string)
    requires t != "" && Trim(t) !in ZeroTokens
    ensures CleanValue(Str(t)) == FloatOrZero(ValueText(t))
  {
  }

  /** A cell without any digit is worth 0 (labels, "nan", "N/A", currency signs alone). */
  lemma {:induction false} NoDigitIsZero(t: string)
    requires !HasDigit(t)
    ensures CleanValue(Str(t)) == 0.0
  {
    CleanValueIsFloat(t);
  }

  /** Currency signs, separators and other letters are ignored: without a pair of parentheses the kept numeral is the value. */
  lemma {:induction false} SeparatorsIgnored(t: string, d: string)
    requires !('(' in t && ')' in t)
    requires KeepOnly(t, IsValueChar) == d && ParseDecimal(d).Some?
    ensures CleanValue(Str(t)) == ParseDecimal(d).value
  {
    CleanValueIsFloat(t);
    assert "" + d == d;
  }

  /** A cell that already holds a plain number is read as that number. */
  lemma {:induction false} PlainNumberIsItself(d: string)
    requires PlainNumber(d)
    ensures CleanValue(Str(d)) == ParseDecimal(d).value
  {
    assert forall i :: 0 <= i < |d| ==> IsValueChar(d[i]);
    assert '(' !in d;
    SeparatorsIgnored(d, d);
  }

  /** A cell holding '(' and ')' around an unsigned numeral, with any separators, is read as its negation. */
  lemma {:induction false} ParenthesizedValue(t: string, u: string)
    requires '(' in t && ')' in t
    requires KeepOnly(t, IsValueChar) == u && ParseUnsigned(u).Some?
    ensures CleanValue(Str(t)) == -ParseUnsigned(u).value
  {
    CleanValueIsFloat(t);
    ParseNegated(u);
  }

  // ---------------------------------------------------------------------
  // _detect_context
  // ---------------------------------------------------------------------

  /** The store's unit; `UnitNotSet` is the initial "unknown". */
  datatype Unit = UnitNotSet | Millions | Thousands | Units

  /** The store's currency; `CurrencyNotSet` is the initial "unknown", `Unknown` the detected "Unknown". */
  datatype Currency = CurrencyNotSet | Usd | Eur | Unknown

  /** The lower-cased first 1000 characters of a frame's rendering. */
  function ContextText(rendered: string): string
  {
    Lower(rendered[..if |rendered| < 1000 then |rendered| else 1000])
  }

  /**
   * `_detect_context`: "million" wins over "thousand", and any of '$',
   * "usd" or "dollar" wins over '€'. It never returns the initial markers.
   */
  function DetectContext(rendered: string): (r: (Unit, Currency))
    ensures r.0 != UnitNotSet && r.1 != CurrencyNotSet
    ensures r.0 == Millions <==> Contains(ContextText(rendered), "million")
    ensures r.0 == Thousands <==> !Contains(ContextText(rendered), "million") && Contains(ContextText(rendered), "thousand")
    ensures r.0 == Units <==> !Contains(ContextText(rendered), "million") && !Contains(ContextText(rendered), "thousand")
    ensures r.1 == Usd <==>
      Contains(ContextText(rendered), "$") || Contains(ContextText(rendered), "usd") || Contains(ContextText(rendered), "dollar")
    ensures r.1 == Eur <==>
      !Contains(ContextText(rendered), "$") && !Contains(ContextText(rendered), "usd")
      && !Contains(ContextText(rendered), "dollar") && Contains(ContextText(rendered), "€")
    ensures r.1 == Unknown <==>
      !Contains(ContextText(rendered), "$") && !Contains(ContextText(rendered), "usd")
      && !Contains(ContextText(rendered), "dollar") && !Contains(ContextText(rendered), "€")
  {
    var text := ContextText(rendered);
    var unit := if Contains(text, "million") then Millions
      else if Contains(text, "thousand") then Thousands
      else Units;
    var currency := if Contains(text, "$") || Contains(text, "usd") || Contains(text, "dollar") then Usd
      else if Contains(text, "€") then Eur
      else Unknown;
    (unit, currency)
  }

  // ---------------------------------------------------------------------
  // File selection and the target-year column
  // ---------------------------------------------------------------------

  /** A match of `_(\d{4})` at position `i`. */
  predicate YearAt(s: string, i: nat)
  {
    i + 5 <= |s| && s[i] == '_' && AllDigits(s[i + 1..i + 5])
  }

  /** The leftmost match at or after `from`. */
  function FindYear(s: string, from: nat): (r: Option<nat>)
    ensures r.Some? ==> from <= r.value && YearAt(s, r.value)
    ensures r.Some? ==> forall k :: from <= k < r.value ==> !YearAt(s, k)
    ensures r.None? ==> forall k :: from <= k ==> !YearAt(s, k)
    decreases |s| - from
  {
    if from + 5 > |s| then None
    else if YearAt(s, from) then Some(from)
    else FindYear(s, from + 1)
  }

  /** `target_year`: the four digits after the first `_` followed by four digits. */
  function ExtractYear(companyId: string): (y: Option<string>)
    ensures y.Some? ==> |y.value| == 4 && AllDigits(y.value)
    ensures y.None? <==> forall k :: !YearAt(companyId, k)
    ensures forall i: nat :: YearAt(companyId, i) && (forall k: nat :: k < i ==> !YearAt(companyId, k)) ==>
      y == Some(companyId[i + 1..i + 5])
  {
    match FindYear(companyId, 0)
    case Some(i) => Some(companyId[i + 1..i + 5])
    case None => None
  }

  /** The listing filter: a name starting with the company id and ending in ".csv". */
  predicate Selected(companyId: string, name: string)
  {
    StartsWith(name, companyId) && EndsWith(name, ".csv")
  }

  /** The files the evaluator reads, in listing order. */
  function SelectedFiles(companyId: string, files: seq<CsvFile>): (r: seq<CsvFile>)
    ensures |r| <= |files|
    ensures forall k :: 0 <= k < |r| ==> Selected(companyId, r[k].name) && r[k] in files
    ensures forall f :: f in files && Selected(companyId, f.name) ==> f in r
  {
    if |files| == 0 then []
    else
      var f := files[|files| - 1];
      assert files == files[..|files| - 1] + [f];
      SelectedFiles(companyId, files[..|files| - 1]) + (if Selected(companyId, f.name) then [f] else [])
  }

  /** The selection keeps the listing order: selecting from two listings in a row selects from each in turn. */
  lemma {:induction false} SelectedFilesAppend(companyId: string, a: seq<CsvFile>, b: seq<CsvFile>)
    ensures SelectedFiles(companyId, a + b) == SelectedFiles(companyId, a) + SelectedFiles(companyId, b)
    decreases |b|
  {
    if |b| == 0 {
      assert a + b == a;
    } else {
      var f := b[|b| - 1];
      var tail := if Selected(companyId, f.name) then [f] else [];
      assert (a + b)[..|a + b| - 1] == a + b[..|b| - 1];
      assert (a + b)[|a + b| - 1] == f;
      calc {
        SelectedFiles(companyId, a + b);
        SelectedFiles(companyId, a + b[..|b| - 1]) + tail;
        { SelectedFilesAppend(companyId, a, b[..|b| - 1]); }
        SelectedFiles(companyId, a) + SelectedFiles(companyId, b[..|b| - 1]) + tail;
        SelectedFiles(companyId, a) + SelectedFiles(companyId, b);
      }
    }
  }

  /** Each file that passes the filter is read as many times as it is listed; any other file never. */
  lemma {:induction false} SelectedFilesCount(companyId: string, files: seq<CsvFile>, f: CsvFile)
    ensures multiset(SelectedFiles(companyId, files))[f] == if Selected(companyId, f.name) then multiset(files)[f] else 0
    decreases |files|
  {
    if |files| > 0 {
      var g := files[|files| - 1];
      assert files == files[..|files| - 1] + [g];
      SelectedFilesCount(companyId, files[..|files| - 1], f);
    }
  }

  /** One listed file is selected alone exactly when it passes the filter. */
  lemma {:induction false} SelectedFilesOne(companyId: string, f: CsvFile)
    ensures SelectedFiles(companyId, [f]) == if Selected(companyId, f.name) then [f] else []
  {
    assert [f][..0] == [];
  }

  /** The text searched for the year in column `c`: its label and its first three cells. */
  function ColumnHeader(columns: seq<string>, rows: seq<seq<CsvCell>>, c: nat): string
    requires c < |columns|
  {
    var top := if |rows| < 3 then |rows| else 3;
    columns[c] + " " + Join(seq(top, k requires 0 <= k < top => Render(At(rows[k], c))), " ")
  }

  predicate IsYearColumn(year: Option<string>, columns: seq<string>, rows: seq<seq<CsvCell>>, c: nat)
    requires c < |columns|
  {
    year.Some? && Contains(ColumnHeader(columns, rows, c), year.value)
  }

  /** The first column at or after `from` whose header text holds the year. */
  function YearColumn(year: Option<string>, columns: seq<string>, rows: seq<seq<CsvCell>>, from: nat): (r: Option<nat>)
    ensures r.Some? ==> from <= r.value < |columns| && IsYearColumn(year, columns, rows, r.value)
    ensures r.Some? ==> forall k :: from <= k < r.value ==> !IsYearColumn(year, columns, rows, k)
    ensures r.None? ==> forall k :: from <= k < |columns| ==> !IsYearColumn(year, columns, rows, k)
    decreases |columns| - from
  {
    if from >= |columns| then None
    else if IsYearColumn(year, columns, rows, from) then Some(from)
    else YearColumn(year, columns, rows, from + 1)
  }

  /** The column search of `_get_metrics`, stopping at the first match. */
  method FindTargetColumn(year: Option<string>, columns: seq<string>, rows: seq<seq<CsvCell>>)
    returns (target: Option<nat>)
    ensures target == YearColumn(year, columns, rows, 0)
  {
    target := None;
    var c := 0;
    while c < |columns|
      invariant c <= |columns|
      invariant YearColumn(year, columns, rows, c) == YearColumn(year, columns, rows, 0)
    {
      var header := ColumnHeader(columns, rows, c);
      if year.Some? && Contains(header, year.value) {
        target := Some(c);
        return;
      }
      c := c + 1;
    }
  }

  /** The header text of column `c` holds its label and each of its first three cells. */
  lemma {:induction false} ColumnHeaderHas(columns: seq<string>, rows: seq<seq<CsvCell>>, c: nat, k: nat)
    requires c < |columns|
    ensures Contains(ColumnHeader(columns, rows, c), columns[c])
    ensures k < |rows| && k < 3 ==> Contains(ColumnHeader(columns, rows, c), Render(At(rows[k], c)))
  {
    var top := if |rows| < 3 then |rows| else 3;
    var cells := seq(top, j requires 0 <= j < top => Render(At(rows[j], c)));
    var header := ColumnHeader(columns, rows, c);
    assert header == "" + columns[c] + (" " + Join(cells, " "));
    ContainsAt(columns[c], columns[c], 0);
    ContainsIn("", columns[c], " " + Join(cells, " "), columns[c]);
    if k < |rows| && k < 3 {
      JoinContains(cells, " ", k);
      assert header == columns[c] + " " + Join(cells, " ") + "";
      ContainsIn(columns[c] + " ", Join(cells, " "), "", cells[k]);
    }
  }

  /** A column is the year column when its label, or one of its first three cells, holds the year. */
  lemma {:induction false} YearInHeader(year: Option<string>, columns: seq<string>, rows: seq<seq<CsvCell>>, c: nat, k: nat)
    requires c < |columns| && year.Some?
    requires Contains(columns[c], year.value) || (k < |rows| && k < 3 && Contains(Render(At(rows[k], c)), year.value))
    ensures IsYearColumn(year, columns, rows, c)
  {
    ColumnHeaderHas(columns, rows, c, k);
    if Contains(columns[c], year.value) {
      ContainsTransitive(ColumnHeader(columns, rows, c), columns[c], year.value);
    } else {
      ContainsTransitive(ColumnHeader(columns, rows, c), Render(At(rows[k], c)), year.value);
    }
  }

  // ---------------------------------------------------------------------
  // Row classification and the slot store
  // ---------------------------------------------------------------------

  datatype Slot = Revenue | NetIncome | Assets | Liabilities

  /** The words of the first branch: a sales or revenue line. */
  predicate RevenueLine(row: string) { Contains(row, "net sales") || Contains(row, "total revenue") }

  /** The words of the second branch: a net income line. */
  predicate IncomeLine(row: string) { Contains(row, "net income") || Contains(row, "net earnings") }

  /**
   * The `if/elif` chain: a revenue line that mentions cost or growth is
   * dropped rather than tried against the later branches.
   */
  function Classify(row: string): (r: Option<Slot>)
    ensures r == Some(Revenue) <==> RevenueLine(row) && !Contains(row, "cost") && !Contains(row, "growth")
    ensures r == Some(NetIncome) <==> !RevenueLine(row) && IncomeLine(row) && !Contains(row, "per share")
    ensures r == Some(Assets) <==> !RevenueLine(row) && !IncomeLine(row) && Contains(row, "total assets")
    ensures r == Some(Liabilities) <==>
      !RevenueLine(row) && !IncomeLine(row) && !Contains(row, "total assets")
      && Contains(row, "total liabilities") && !Contains(row, "equity")
  {
    if RevenueLine(row) then
      if !(Contains(row, "cost") || Contains(row, "growth")) then Some(Revenue) else None
    else if IncomeLine(row) then
      if !Contains(row, "per share") then Some(NetIncome) else None
    else if Contains(row, "total assets") then Some(Assets)
    else if Contains(row, "total liabilities") && !Contains(row, "equity") then Some(Liabilities)
    else None
  }

  /** One observed slot: its value and the file it came from. */
  datatype Observation = Observation(value: real, source: Option<string>)

  /** The four observed slots. */
  datatype Observed = Observed(revenue: Observation, netIncome: Observation, assets: Observation, liabilities: Observation)
  {
    function Get(k: Slot): Observation
    {
      match k
      case Revenue => revenue
      case NetIncome => netIncome
      case Assets => assets
      case Liabilities => liabilities
    }

    function Set(k: Slot, o: Observation): (r: Observed)
      ensures r.Get(k) == o
      ensures forall j :: j != k ==> r.Get(j) == Get(j)
    {
      match k
      case Revenue => this.(revenue := o)
      case NetIncome => this.(netIncome := o)
      case Assets => this.(assets := o)
      case Liabilities => this.(liabilities := o)
    }
  }

  datatype Metadata = Metadata(unit: Unit, currency: Currency, files: seq<string>)

  datatype Store = Store(observed: Observed, metadata: Metadata)

  const Unobserved := Observation(0.0, None)

  /** The store `_get_metrics` starts from. */
  const InitialStore := Store(Observed(Unobserved, Unobserved, Unobserved, Unobserved), Metadata(UnitNotSet, CurrencyNotSet, []))

  /** `row_txt`: the lower-cased cells left of the target column. */
  function RowText(row: seq<CsvCell>, target: nat): string
  {
    Lower(Join(seq(target, k requires 0 <= k < target => Render(At(row, k))), " "))
  }

  /** The slot a row fills from column `target`, if any: a nonzero value on a classified line. */
  function Fills(row: seq<CsvCell>, target: nat): Option<Slot>
  {
    if CleanValue(At(row, target)) == 0.0 then None else Classify(RowText(row, target))
  }

  /** The store after one row of file `name`. */
  function ScanRow(obs: Observed, name: string, row: seq<CsvCell>, target: nat): Observed
  {
    match Fills(row, target)
    case None => obs
    case Some(k) => obs.Set(k, Observation(CleanValue(At(row, target)), Some(name)))
  }

  /** The store after the rows of file `name`, top to bottom. */
  function ScanRows(obs: Observed, name: string, rows: seq<seq<CsvCell>>, target: nat): Observed
  {
    if |rows| == 0 then obs
    else ScanRow(ScanRows(obs, name, rows[..|rows| - 1], target), name, rows[|rows| - 1], target)
  }

  /** The store after one readable file. */
  function ReadFrame(store: Store, year: Option<string>, f: CsvFile): Store
    requires f.content.Frame?
  {
    var columns, rows := f.content.columns, f.content.rows;
    if |rows| == 0 || |columns| == 0 then store
    else
      var meta := if store.metadata.unit == UnitNotSet then
          var (u, c) := DetectContext(f.content.rendered);
          store.metadata.(unit := u, currency := c)
        else store.metadata;
      var meta := meta.(files := meta.files + [f.name]);
      match YearColumn(year, columns, rows, 0)
      case None => Store(store.observed, meta)
      case Some(t) => Store(ScanRows(store.observed, f.name, rows, t), meta)
  }

  /** The store after the files, stopping at the first unreadable one (the caught exception). */
  function ReadFiles(store: Store, year: Option<string>, files: seq<CsvFile>): Store
    decreases |files|
  {
    if |files| == 0 then store
    else match files[0].content
      case Unreadable => store
      case Frame(_, _, _) => ReadFiles(ReadFrame(store, year, files[0]), year, files[1..])
  }

  /** `_get_metrics`; `None` stands for a listing that raised. */
  function Metrics(companyId: string, listing: Option<seq<CsvFile>>): Store
  {
    match listing
    case None => InitialStore
    case Some(files) => ReadFiles(InitialStore, ExtractYear(companyId), SelectedFiles(companyId, files))
  }

  /** The row loop of `_get_metrics` for one file. */
  method ReadRows(obs: Observed, name: string, rows: seq<seq<CsvCell>>, target: nat) returns (r: Observed)
    ensures r == ScanRows(obs, name, rows, target)
  {
    r := obs;
    for i := 0 to |rows|
      invariant r == ScanRows(obs, name, rows[..i], target)
    {
      assert rows[..i + 1][..i] == rows[..i];
      var val := CleanValue(At(rows[i], target));
      if val == 0.0 {
        continue;
      }
      var key := Classify(RowText(rows[i], target));
      if key.Some? {
        r := r.Set(key.value, Observation(val, Some(name)));
      }
    }
    assert rows[..|rows|] == rows;
  }

  /** `_get_metrics`: the files of one company read in listing order into a fresh store. */
  method GetMetrics(companyId: string, listing: Option<seq<CsvFile>>) returns (store: Store)
    ensures store == Metrics(companyId, listing)
  {
    store := InitialStore;
    var year := ExtractYear(companyId);
    if listing.None? {
      return;
    }
    var files := SelectedFiles(companyId, listing.value);
    for i := 0 to |files|
      invariant ReadFiles(store, year, files[i..]) == Metrics(companyId, listing)
    {
      var f := files[i];
      assert files[i..][0] == f && files[i..][1..] == files[i + 1..];
      if f.content.Unreadable? {
        return;
      }
      var columns, rows := f.content.columns, f.content.rows;
      if |rows| == 0 || |columns| == 0 {
        continue;
      }
      if store.metadata.unit == UnitNotSet {
        var (u, c) := DetectContext(f.content.rendered);
        store := store.(metadata := store.metadata.(unit := u, currency := c));
      }
      store := store.(metadata := store.metadata.(files := store.metadata.files + [f.name]));
      var target := FindTargetColumn(year, columns, rows);
      if target.None? {
        continue;
      }
      var obs := ReadRows(store.observed, f.name, rows, target.value);
      store := store.(observed := obs);
    }
  }

  // ---------------------------------------------------------------------
  // What the extracted store promises
  // ---------------------------------------------------------------------

  /** Every slot holds a nonzero value exactly when it names its source, which is one of `names`. */
  predicate Sourced(obs: Observed, names: seq<string>)
  {
    forall k: Slot :: (obs.Get(k).value != 0.0 <==> obs.Get(k).source.Some?)
      && (obs.Get(k).source.Some? ==> obs.Get(k).source.value in names)
  }

  predicate AllSelected(companyId: string, names: seq<string>)
  {
    forall i :: 0 <= i < |names| ==> Selected(companyId, names[i])
  }

  lemma {:induction false} SourcedGrows(obs: Observed, names: seq<string>, name: string)
    requires Sourced(obs, names)
    ensures Sourced(obs, names + [name])
  {
    forall k: Slot | obs.Get(k).source.Some?
      ensures obs.Get(k).source.value in names + [name]
    {
      assert obs.Get(k).source.value in names;
    }
  }

  /** One row keeps the store sourced: a slot is only filled with a nonzero value. */
  lemma {:induction false} ScanRowSourced(obs: Observed, name: string, row: seq<CsvCell>, t: nat, names: seq<string>)
    requires Sourced(obs, names) && name in names
    ensures Sourced(ScanRow(obs, name, row, t), names)
  {
    match Fills(row, t)
    case None =>
    case Some(k) =>
      assert CleanValue(At(row, t)) != 0.0;
  }

  lemma {:induction false} ScanRowsSourced(obs: Observed, name: string, rows: seq<seq<CsvCell>>, t: nat, names: seq<string>)
    requires Sourced(obs, names) && name in names
    ensures Sourced(ScanRows(obs, name, rows, t), names)
  {
    if |rows| > 0 {
      ScanRowsSourced(obs, name, rows[..|rows| - 1], t, names);
      ScanRowSourced(ScanRows(obs, name, rows[..|rows| - 1], t), name, rows[|rows| - 1], t, names);
    }
  }

  lemma {:induction false} ReadFrameSourced(companyId: string, store: Store, year: Option<string>, f: CsvFile)
    requires f.content.Frame? && Selected(companyId, f.name)
    requires Sourced(store.observed, store.metadata.files) && AllSelected(companyId, store.metadata.files)
    ensures Sourced(ReadFrame(store, year, f).observed, ReadFrame(store, year, f).metadata.files)
    ensures AllSelected(companyId, ReadFrame(store, year, f).metadata.files)
  {
    var columns, rows := f.content.columns, f.content.rows;
    if |rows| > 0 && |columns| > 0 {
      var names := store.metadata.files + [f.name];
      assert ReadFrame(store, year, f).metadata.files == names;
      SourcedGrows(store.observed, store.metadata.files, f.name);
      match YearColumn(year, columns, rows, 0)
      case None =>
      case Some(t) =>
        ScanRowsSourced(store.observed, f.name, rows, t, names);
    }
  }

  lemma {:induction false} ReadFilesSourced(companyId: string, store: Store, year: Option<string>, files: seq<CsvFile>)
    requires forall k :: 0 <= k < |files| ==> Selected(companyId, files[k].name)
    requires Sourced(store.observed, store.metadata.files) && AllSelected(companyId, store.metadata.files)
    ensures Sourced(ReadFiles(store, year, files).observed, ReadFiles(store, year, files).metadata.files)
    ensures AllSelected(companyId, ReadFiles(store, year, files).metadata.files)
    decreases |files|
  {
    if |files| > 0 && files[0].content.Frame? {
      ReadFrameSourced(companyId, store, year, files[0]);
      ReadFilesSourced(companyId, ReadFrame(store, year, files[0]), year, files[1..]);
    }
  }

  /**
   * Every nonzero slot names the file it came from, and every file the
   * store lists starts with the company id and ends in ".csv"; a slot left
   * at zero has no source.
   */
  lemma {:induction false} MetricsSourced(companyId: string, listing: Option<seq<CsvFile>>)
    ensures Sourced(Metrics(companyId, listing).observed, Metrics(companyId, listing).metadata.files)
    ensures AllSelected(companyId, Metrics(companyId, listing).metadata.files)
  {
    if listing.Some? {
      ReadFilesSourced(companyId, InitialStore, ExtractYear(companyId), SelectedFiles(companyId, listing.value));
    }
  }

  lemma {:induction false} ReadFilesNoYear(store: Store, files: seq<CsvFile>)
    ensures ReadFiles(store, None, files).observed == store.observed
    decreases |files|
  {
    if |files| > 0 && files[0].content.Frame? {
      var f := files[0];
      if |f.content.rows| > 0 && |f.content.columns| > 0 {
        assert YearColumn(None, f.content.columns, f.content.rows, 0).None?;
      }
      ReadFilesNoYear(ReadFrame(store, None, f), files[1..]);
    }
  }

  /** A company id without `_dddd` leaves every slot unobserved. */
  lemma {:induction false} NoYearNoValues(companyId: string, listing: Option<seq<CsvFile>>)
    requires forall k :: !YearAt(companyId, k)
    ensures Metrics(companyId, listing).observed == InitialStore.observed
  {
    if listing.Some? {
      ReadFilesNoYear(InitialStore, SelectedFiles(companyId, listing.value));
    }
  }

  /** A file none of whose columns mentions the year is listed but fills nothing. */
  lemma {:induction false} NoYearColumnNoValues(store: Store, year: Option<string>, f: CsvFile)
    requires f.content.Frame?
    requires forall c :: 0 <= c < |f.content.columns| ==> !IsYearColumn(year, f.content.columns, f.content.rows, c)
    ensures ReadFrame(store, year, f).observed == store.observed
  {
    var columns, rows := f.content.columns, f.content.rows;
    if |rows| > 0 && |columns| > 0 {
      assert YearColumn(year, columns, rows, 0).None?;
    }
  }

  /** Once the unit is detected, later files change neither the unit nor the currency. */
  lemma {:induction false} ContextFrozen(store: Store, year: Option<string>, files: seq<CsvFile>)
    requires store.metadata.unit != UnitNotSet
    ensures ReadFiles(store, year, files).metadata.unit == store.metadata.unit
    ensures ReadFiles(store, year, files).metadata.currency == store.metadata.currency
    decreases |files|
  {
    if |files| > 0 && files[0].content.Frame? {
      ContextFrozen(ReadFrame(store, year, files[0]), year, files[1..]);
    }
  }

  /** The first non-empty file decides the unit and the currency for good. */
  lemma {:induction false} FirstFileSetsContext(store: Store, year: Option<string>, files: seq<CsvFile>)
    requires store.metadata.unit == UnitNotSet && |files| > 0 && files[0].content.Frame?
    requires |files[0].content.rows| > 0 && |files[0].content.columns| > 0
    ensures (ReadFiles(store, year, files).metadata.unit, ReadFiles(store, year, files).metadata.currency)
      == DetectContext(files[0].content.rendered)
  {
    var next := ReadFrame(store, year, files[0]);
    assert (next.metadata.unit, next.metadata.currency) == DetectContext(files[0].content.rendered);
    ContextFrozen(next, year, files[1..]);
  }

  /** A slot no row fills keeps what it held. */
  lemma {:induction false} UnfilledSlotKept(obs: Observed, name: string, rows: seq<seq<CsvCell>>, t: nat, k: Slot)
    requires forall j :: 0 <= j < |rows| ==> Fills(rows[j], t) != Some(k)
    ensures ScanRows(obs, name, rows, t).Get(k) == obs.Get(k)
  {
    if |rows| > 0 {
      var front := rows[..|rows| - 1];
      assert forall j :: 0 <= j < |front| ==> front[j] == rows[j];
      UnfilledSlotKept(obs, name, front, t, k);
    }
  }

  /** The last row that fills a slot decides it: a later match overwrites an earlier one. */
  lemma {:induction false} LastFillWins(obs: Observed, name: string, rows: seq<seq<CsvCell>>, t: nat, i: nat, k: Slot)
    requires i < |rows| && Fills(rows[i], t) == Some(k)
    requires forall j :: i < j < |rows| ==> Fills(rows[j], t) != Some(k)
    ensures ScanRows(obs, name, rows, t).Get(k) == Observation(CleanValue(At(rows[i], t)), Some(name))
  {
    var front := rows[..|rows| - 1];
    if i < |rows| - 1 {
      assert forall j :: 0 <= j < |front| ==> front[j] == rows[j];
      LastFillWins(obs, name, front, t, i, k);
    }
  }

  /** The row text holds every cell left of the target column, rendered and lower-cased. */
  lemma {:induction false} RowTextHas(row: seq<CsvCell>, t: nat, k: nat)
    requires k < t
    ensures Contains(RowText(row, t), Lower(Render(At(row, k))))
  {
    var cells := seq(t, j requires 0 <= j < t => Render(At(row, j)));
    JoinContains(cells, " ", k);
    LowerContains(Join(cells, " "), cells[k]);
  }

  /**
   * A file "ACME_2022.csv" with columns `item` and `2022` and the single row
   * `Total revenue | 500` gives company "ACME_2022" a revenue of 500 sourced
   * from that file, and nothing else.
   */
  lemma {:induction false} MetricsExample(companyId: string, name: string, y: string, cell: string, w: string, rendered: string)
    requires companyId == "ACME_2022" && name == companyId + ".csv"
    requires y == "2022" && cell == "Total revenue" && w == "500"
    ensures Metrics(companyId, Some([CsvFile(name, Frame(["item", y], [[Str(cell), Str(w)]], rendered))])).observed
      == Observed(Observation(500.0, Some(name)), Unobserved, Unobserved, Unobserved)
    ensures Metrics(companyId, Some([CsvFile(name, Frame(["item", y], [[Str(cell), Str(w)]], rendered))])).metadata.files == [name]
  {
    var columns, row := ["item", y], [Str(cell), Str(w)];
    var f := CsvFile(name, Frame(columns, [row], rendered));
    ExampleSelected(companyId, name);
    SelectedFilesOne(companyId, f);
    ExampleYear(companyId, y);
    var store := ReadFrame(InitialStore, Some(y), f);
    ReadOneFile(InitialStore, Some(y), f);
    assert Metrics(companyId, Some([f])) == store;
    ExampleColumn(columns, [row], y, cell, w);
    ExampleRow(row, cell, w);
    ScanOneRow(InitialStore.observed, name, row, 1);
    assert store.observed == ScanRow(InitialStore.observed, name, row, 1);
  }

  /** A listing of one readable file is that file's frame. */
  lemma {:induction false} ReadOneFile(store: Store, year: Option<string>, f: CsvFile)
    requires f.content.Frame?
    ensures ReadFiles(store, year, [f]) == ReadFrame(store, year, f)
  {
    assert [f][1..] == [];
  }

  /** A frame of one row is that row's scan. */
  lemma {:induction false} ScanOneRow(obs: Observed, name: string, row: seq<CsvCell>, t: nat)
    ensures ScanRows(obs, name, [row], t) == ScanRow(obs, name, row, t)
  {
    assert [row][..0] == [];
  }

  /** The example file passes the listing filter. */
  lemma {:induction false} ExampleSelected(companyId: string, name: string)
    requires companyId == "ACME_2022" && name == companyId + ".csv"
    ensures Selected(companyId, name)
  {
    assert name[..|companyId|] == companyId;
    assert name[|name| - 4..] == ".csv";
  }

  /** The example id names the year 2022. */
  lemma {:induction false} ExampleYear(companyId: string, y: string)
    requires companyId == "ACME_2022" && y == "2022"
    ensures ExtractYear(companyId) == Some(y)
  {
    assert YearAt(companyId, 4);
    assert forall k: nat :: k < 4 ==> !YearAt(companyId, k);
    assert companyId[5..9] == y;
  }

  /** In the example file the year is found in the second column. */
  lemma {:induction false} ExampleColumn(columns: seq<string>, rows: seq<seq<CsvCell>>, y: string, cell: string, w: string)
    requires y == "2022" && cell == "Total revenue" && w == "500"
    requires columns == ["item", y] && rows == [[Str(cell), Str(w)]]
    ensures YearColumn(Some(y), columns, rows, 0) == Some(1)
  {
    var header := ColumnHeader(columns, rows, 0);
    assert header == "item" + " " + cell by {
      var cells := seq(1, j requires 0 <= j < 1 => Render(At(rows[j], 0)));
      assert cells == [cell];
    }
    assert '2' !in header;
    if Contains(header, y) {
      ContainsHasChar(header, y);
    }
    assert !IsYearColumn(Some(y), columns, rows, 0);
    YearInHeader(Some(y), columns, rows, 1, 0);
  }

  /** Lower-casing the example label. */
  lemma {:induction false} ExampleLower(cell: string)
    requires cell == "Total revenue"
    ensures Lower(cell) == "total revenue"
  {
    var text := Lower(cell);
    forall i | 0 <= i < |cell|
      ensures text[i] == "total revenue"[i]
    {
      assert text[i] == LowerChar(cell[i]);
    }
  }

  /** The example row fills the revenue slot with 500. */
  lemma {:induction false} ExampleRow(row: seq<CsvCell>, cell: string, w: string)
    requires cell == "Total revenue" && w == "500" && row == [Str(cell), Str(w)]
    ensures CleanValue(At(row, 1)) == 500.0 && Fills(row, 1) == Some(Revenue)
  {
    ExampleValue(w);
    RowTextFirst(row);
    ExampleLower(cell);
    ExampleRevenueLine(RowText(row, 1));
  }

  /** The example value cell reads as 500. */
  lemma {:induction false} ExampleValue(w: string)
    requires w == "500"
    ensures CleanValue(Str(w)) == 500.0
  {
    ExampleWhole(w);
    ParseUnsignedDirect(w);
    PlainNumberIsItself(w);
  }

  /** With the target in the second column, the row text is the first cell, lower-cased. */
  lemma {:induction false} RowTextFirst(row: seq<CsvCell>)
    ensures RowText(row, 1) == Lower(Render(At(row, 0)))
  {
    var cells := seq(1, j requires 0 <= j < 1 => Render(At(row, j)));
    assert cells == [Render(At(row, 0))];
  }

  /** "total revenue" is a revenue line without cost or growth. */
  lemma {:induction false} ExampleRevenueLine(text: string)
    requires text == "total revenue"
    ensures Classify(text) == Some(Revenue)
  {
    ContainsAt(text, text, 0);
    assert 'c' !in text;
    assert 'g' !in text;
    if Contains(text, "cost") {
      ContainsHasChar(text, "cost");
    }
    if Contains(text, "growth") {
      ContainsHasChar(text, "growth");
    }
  }

  // ---------------------------------------------------------------------
  // analyze_company
  // ---------------------------------------------------------------------

  /** The slots of the store, in its key order. */
  const AllSlots: seq<Slot> := [Revenue, NetIncome, Assets, Liabilities]

  datatype Integrity = Passed | Failed

  datatype Mode = Deductive | Investigative

  datatype Anomaly = Anomaly(kind: string, severity: string, rationale: string)

  const CollisionAnomaly := Anomaly("data_collision", "CRITICAL", "Assets == Liabilities detected.")

  const CautionNote := "Identity failure detected"

  /** The report; `equityDeduced == None` is the "UNRELIABLE" marker. */
  datatype Report = Report(
    entity: string,
    period: string,
    observed: Observed,
    netMargin: Option<real>,
    equityDeduced: Option<real>,
    identityVerified: bool,
    completeness: real,
    sanityScore: real,
    integrity: Integrity,
    anomalies: seq<Anomaly>,
    safeToReason: bool,
    mode: Mode,
    knownUnknowns: seq<Slot>,
    cautionNote: Option<string>,
    metadata: Metadata)

  function Abs(x: real): real { if x < 0.0 then -x else x }

  function Max(a: real, b: real): real { if a >= b then a else b }

  /** The number of `slots` holding a nonzero value. */
  function NonzeroCount(obs: Observed, slots: seq<Slot>): (n: nat)
    ensures n <= |slots|
  {
    if |slots| == 0 then 0
    else NonzeroCount(obs, slots[..|slots| - 1]) + (if obs.Get(slots[|slots| - 1]).value != 0.0 then 1 else 0)
  }

  /** `known_unknowns`: the slots still at zero, in order. */
  function Unknowns(obs: Observed, slots: seq<Slot>): (r: seq<Slot>)
    ensures |r| + NonzeroCount(obs, slots) == |slots|
    ensures forall k :: k in r <==> k in slots && obs.Get(k).value == 0.0
  {
    if |slots| == 0 then []
    else
      var k := slots[|slots| - 1];
      Unknowns(obs, slots[..|slots| - 1]) + (if obs.Get(k).value == 0.0 then [k] else [])
  }

  /** Both folds over the four slots, written out. */
  lemma {:induction false} AllSlotsUnfolded(obs: Observed)
    ensures NonzeroCount(obs, AllSlots) ==
      (if obs.revenue.value != 0.0 then 1 else 0) + (if obs.netIncome.value != 0.0 then 1 else 0)
      + (if obs.assets.value != 0.0 then 1 else 0) + (if obs.liabilities.value != 0.0 then 1 else 0)
    ensures Unknowns(obs, AllSlots) ==
      (if obs.revenue.value == 0.0 then [Revenue] else []) + (if obs.netIncome.value == 0.0 then [NetIncome] else [])
      + (if obs.assets.value == 0.0 then [Assets] else []) + (if obs.liabilities.value == 0.0 then [Liabilities] else [])
  {
    var s1, s2, s3: seq<Slot> := [Revenue], [Revenue, NetIncome], [Revenue, NetIncome, Assets];
    assert s1[..0] == [] && s2[..1] == s1 && s3[..2] == s2 && AllSlots[..3] == s3;
    assert NonzeroCount(obs, s1) == (if obs.revenue.value != 0.0 then 1 else 0);
    assert Unknowns(obs, s1) == (if obs.revenue.value == 0.0 then [Revenue] else []);
    assert NonzeroCount(obs, s2) == NonzeroCount(obs, s1) + (if obs.netIncome.value != 0.0 then 1 else 0);
    assert NonzeroCount(obs, s3) == NonzeroCount(obs, s2) + (if obs.assets.value != 0.0 then 1 else 0);
    assert Unknowns(obs, s2) == Unknowns(obs, s1) + (if obs.netIncome.value == 0.0 then [NetIncome] else []);
    assert Unknowns(obs, s3) == Unknowns(obs, s2) + (if obs.assets.value == 0.0 then [Assets] else []);
  }

  /** `entity`: the id up to its first '_', or "UNKNOWN" for an empty id. */
  function Entity(companyId: string): (e: string)
    ensures '_' !in e
  {
    if companyId == "" then "UNKNOWN" else Split(companyId, '_')[0]
  }

  /** `period`: the part after the first '_', or "UNKNOWN" when there is none. */
  function Period(companyId: string): (p: string)
    ensures '_' !in p
  {
    if '_' in companyId then
      SplitAtSeparator(companyId, '_');
      Split(companyId, '_')[1]
    else "UNKNOWN"
  }

  /** An id with a '_' starts with its entity, a '_' and its period. */
  lemma {:induction false} EntityPeriodPrefix(companyId: string)
    requires '_' in companyId
    ensures StartsWith(companyId, Entity(companyId) + "_" + Period(companyId))
  {
    SplitAtSeparator(companyId, '_');
    SplitPrefix(companyId, '_');
  }

  /** The sanity score: one less the penalties that apply, floored at 0.1. */
  function SanityScore(store: Store): real
  {
    var assets, liabilities := store.observed.assets.value, store.observed.liabilities.value;
    Max(0.1, 1.0
      - (if assets == liabilities && assets != 0.0 then 0.8 else 0.0)
      - (if assets != 0.0 && liabilities == 0.0 then 0.4 else 0.0)
      - (if store.metadata.currency == Unknown then 0.2 else 0.0))
  }

  /**
   * The report in closed form: the identity holds exactly when assets and
   * liabilities are both nonzero, and the sanity score is one less the
   * penalties that apply, floored at 0.1.
   */
  function Evaluate(companyId: string, store: Store): Report
  {
    var obs := store.observed;
    var revenue, netIncome := obs.revenue.value, obs.netIncome.value;
    var assets, liabilities := obs.assets.value, obs.liabilities.value;
    var collision := assets == liabilities && assets != 0.0;
    var identity := assets != 0.0 && liabilities != 0.0;
    var completeness := NonzeroCount(obs, AllSlots) as real / 4.0;
    var sanity := SanityScore(store);
    Report(
      Entity(companyId),
      Period(companyId),
      obs,
      if revenue != 0.0 && netIncome != 0.0 then Some(RoundTo(netIncome / revenue, 4)) else None,
      if collision then None else Some(RoundTo(assets - liabilities, 2)),
      identity,
      completeness,
      sanity,
      if sanity > 0.6 && !collision then Passed else Failed,
      if collision then [CollisionAnomaly] else [],
      completeness >= 0.75 && sanity >= 0.6,
      if identity then Deductive else Investigative,
      Unknowns(obs, AllSlots),
      if assets != 0.0 && liabilities == 0.0 then Some(CautionNote) else None,
      store.metadata)
  }

  /** The rounded equity is within a hundredth of the exact one, so the identity check never fails on rounding. */
  lemma {:induction false} EquityRoundingSmall(assets: real, liabilities: real)
    ensures Abs(assets - (liabilities + RoundTo(assets - liabilities, 2))) < 1.0
  {
    var e := RoundTo(assets - liabilities, 2);
    assert Pow10(2) == 100;
    assert -0.5 / 100.0 <= e - (assets - liabilities) <= 0.5 / 100.0;
  }

  /** A score on the hundredths grid is left alone by `round(_, 2)`. */
  lemma {:induction false} HundredthsRoundExact(n: int)
    ensures RoundTo(n as real / 100.0, 2) == n as real / 100.0
  {
    assert Pow10(2) == 100;
    assert (n as real / 100.0) * 100.0 == n as real;
  }

  /** `sum(1 for v in obs.values() if v["value"] != 0)`. */
  method CountObserved(obs: Observed) returns (observed: nat)
    ensures observed == NonzeroCount(obs, AllSlots)
  {
    observed := 0;
    for i := 0 to |AllSlots|
      invariant observed == NonzeroCount(obs, AllSlots[..i])
    {
      assert AllSlots[..i + 1][..i] == AllSlots[..i];
      if obs.Get(AllSlots[i]).value != 0.0 {
        observed := observed + 1;
      }
    }
    assert AllSlots[..|AllSlots|] == AllSlots;
  }

  /** The sanity score, decremented penalty by penalty and then rounded and floored. */
  method Score(store: Store, collision: bool, identity: bool) returns (sanity: real)
    requires collision <==> store.observed.assets.value == store.observed.liabilities.value != 0.0
    requires identity <==> store.observed.assets.value != 0.0 && store.observed.liabilities.value != 0.0
    ensures sanity == SanityScore(store)
  {
    var assets := store.observed.assets.value;
    sanity := 1.0;
    var hundredths := 100;
    if collision {
      sanity := sanity - 0.8;
      hundredths := hundredths - 80;
    }
    if !identity && assets != 0.0 {
      sanity := sanity - 0.4;
      hundredths := hundredths - 40;
    }
    if store.metadata.currency == Unknown {
      sanity := sanity - 0.2;
      hundredths := hundredths - 20;
    }
    assert sanity == hundredths as real / 100.0;
    HundredthsRoundExact(hundredths);
    sanity := Max(0.1, RoundTo(sanity, 2));
  }

  /** The step-by-step scoring of `analyze_company`. */
  method Assess(companyId: string, store: Store) returns (r: Report)
    ensures r == Evaluate(companyId, store)
  {
    var obs := store.observed;
    var revenue, netIncome := obs.revenue.value, obs.netIncome.value;
    var netMargin: Option<real> := None;
    if revenue != 0.0 && netIncome != 0.0 {
      netMargin := Some(RoundTo(netIncome / revenue, 4));
    }
    var assets, liabilities := obs.assets.value, obs.liabilities.value;
    var equity := RoundTo(assets - liabilities, 2);
    var anomalies: seq<Anomaly> := [];
    var collision := assets == liabilities && assets != 0.0;
    EquityRoundingSmall(assets, liabilities);
    var identity := assets != 0.0 && liabilities != 0.0 && Abs(assets - (liabilities + equity)) < 1.0;
    if collision {
      anomalies := anomalies + [CollisionAnomaly];
    }
    var observed := CountObserved(obs);
    var completeness := observed as real / 4.0;
    var sanity := Score(store, collision, identity);
    r := Report(
      Entity(companyId),
      Period(companyId),
      obs,
      netMargin,
      if !collision then Some(equity) else None,
      identity,
      completeness,
      sanity,
      if sanity > 0.6 && !collision then Passed else Failed,
      anomalies,
      completeness >= 0.75 && sanity >= 0.6,
      if identity then Deductive else Investigative,
      Unknowns(obs, AllSlots),
      if !identity && assets != 0.0 then Some(CautionNote) else None,
      store.metadata);
  }

  /** `analyze_company`: extract the store, then assess it. */
  method AnalyzeCompany(companyId: string, listing: Option<seq<CsvFile>>) returns (r: Report)
    ensures r == Evaluate(companyId, Metrics(companyId, listing))
    ensures forall k: Slot :: r.observed.Get(k).source.Some? ==> Selected(companyId, r.observed.Get(k).source.value)
  {
    var store := GetMetrics(companyId, listing);
    MetricsSourced(companyId, listing);
    r := Assess(companyId, store);
    forall k: Slot | r.observed.Get(k).source.Some?
      ensures Selected(companyId, r.observed.Get(k).source.value)
    {
      var n := r.observed.Get(k).source.value;
      var i :| 0 <= i < |store.metadata.files| && store.metadata.files[i] == n;
    }
  }

  // ---------------------------------------------------------------------
  // What the report promises
  // ---------------------------------------------------------------------

  /** The sanity score lies in [0.1, 1] and completeness in [0, 1]. */
  lemma {:induction false} ReportRanges(companyId: string, store: Store)
    ensures 0.1 <= Evaluate(companyId, store).sanityScore <= 1.0
    ensures 0.0 <= Evaluate(companyId, store).completeness <= 1.0
  {
    var n := NonzeroCount(store.observed, AllSlots);
    RatioIsFraction(n as real, 4.0);
  }

  /**
   * Equal nonzero assets and liabilities: one critical collision anomaly,
   * no deduced equity, a score of at most 0.2 and a failed integrity.
   */
  lemma {:induction false} CollisionReport(companyId: string, store: Store)
    requires store.observed.assets.value == store.observed.liabilities.value != 0.0
    ensures Evaluate(companyId, store).anomalies == [CollisionAnomaly]
    ensures Evaluate(companyId, store).equityDeduced.None?
    ensures Evaluate(companyId, store).sanityScore <= 0.2
    ensures Evaluate(companyId, store).integrity == Failed
  {
  }

  /** Without a collision there is no anomaly and the equity is deduced. */
  lemma {:induction false} NoCollisionReport(companyId: string, store: Store)
    requires !(store.observed.assets.value == store.observed.liabilities.value != 0.0)
    ensures Evaluate(companyId, store).anomalies == []
    ensures Evaluate(companyId, store).equityDeduced == Some(RoundTo(store.observed.assets.value - store.observed.liabilities.value, 2))
  {
  }

  /**
   * The data passes exactly when there is no collision and the identity is
   * not missing its liabilities; an unknown currency alone does not fail it.
   */
  lemma {:induction false} IntegrityPassed(companyId: string, store: Store)
    ensures Evaluate(companyId, store).integrity == Passed <==>
      !(store.observed.assets.value == store.observed.liabilities.value != 0.0)
      && !(store.observed.assets.value != 0.0 && store.observed.liabilities.value == 0.0)
  {
  }

  /** Reasoning is safe only with at least three observed slots and no collision. */
  lemma {:induction false} SafeNeedsThreeSlots(companyId: string, store: Store)
    requires Evaluate(companyId, store).safeToReason
    ensures NonzeroCount(store.observed, AllSlots) >= 3
    ensures |Evaluate(companyId, store).knownUnknowns| <= 1
    ensures !(store.observed.assets.value == store.observed.liabilities.value != 0.0)
  {
    var n := NonzeroCount(store.observed, AllSlots);
    if n <= 2 {
      DivMonotone(n as real, 2.0, 4.0);
    }
  }

  /** The known unknowns are exactly the zero slots, each once, in store order. */
  lemma {:induction false} KnownUnknownsExact(companyId: string, store: Store)
    ensures forall k :: k in Evaluate(companyId, store).knownUnknowns <==> store.observed.Get(k).value == 0.0
    ensures Evaluate(companyId, store).completeness == (4 - |Evaluate(companyId, store).knownUnknowns|) as real / 4.0
  {
  }

  /** The deductive mode and the net margin need both of their inputs observed. */
  lemma {:induction false} ModeAndMargin(companyId: string, store: Store)
    ensures Evaluate(companyId, store).mode == Deductive <==> Evaluate(companyId, store).identityVerified
    ensures Evaluate(companyId, store).identityVerified <==> store.observed.assets.value != 0.0 && store.observed.liabilities.value != 0.0
    ensures Evaluate(companyId, store).netMargin.Some? <==> store.observed.revenue.value != 0.0 && store.observed.netIncome.value != 0.0
    ensures Evaluate(companyId, store).cautionNote.Some? <==> !Evaluate(companyId, store).identityVerified && store.observed.assets.value != 0.0
  {
  }

  /**
   * When the listing fails the store keeps its initial "unknown" currency,
   * which is not the "Unknown" the score penalizes: the empty report passes.
   */
  lemma {:induction false} FailedListingPasses(companyId: string)
    ensures Evaluate(companyId, Metrics(companyId, None)).sanityScore == 1.0
    ensures Evaluate(companyId, Metrics(companyId, None)).integrity == Passed
    ensures Evaluate(companyId, Metrics(companyId, None)).completeness == 0.0
  {
    AllSlotsUnfolded(InitialStore.observed);
  }

  /** Revenue 500 and assets 1000 alone: half complete, a missing liability, and a failed integrity. */
  lemma {:induction false} RevenueAndAssetsOnly(companyId: string, store: Store, n: string)
    requires store.observed == Observed(Observation(500.0, Some(n)), Unobserved, Observation(1000.0, Some(n)), Unobserved)
    requires store.metadata.currency == Usd
    ensures Evaluate(companyId, store).completeness == 0.5
    ensures Evaluate(companyId, store).knownUnknowns == [NetIncome, Liabilities]
    ensures Evaluate(companyId, store).sanityScore == 0.6
    ensures Evaluate(companyId, store).integrity == Failed
    ensures !Evaluate(companyId, store).safeToReason
    ensures Evaluate(companyId, store).mode == Investigative
    ensures Evaluate(companyId, store).cautionNote == Some(CautionNote)
  {
    AllSlotsUnfolded(store.observed);
  }
}
