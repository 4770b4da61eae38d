/**
 * The canonicalizer of `src/canonicalizer.py`: the cell normalizer
 * (`clean_cell`), the markdown table parser (`parse_markdown_table`), the
 * table qualifier (`is_high_quality`) and the loop of `process_file` that
 * keeps the table fragments of one decomposed document.
 */
module Canonicalizer {
  import opened Wrappers
  import opened Strings
  import opened Numeral

  /** A canonical cell: a number, or a label kept as it was written. */
  datatype Cell = Num(r: real) | Text(s: string)

  /**
   * One raw value: missing (`None` or NaN), or present, given by its text
   * `str(val)` (a Python number appears as its `str()` rendering).
   */
  datatype Scalar = Null | Str(s: string)

  /** What `clean_cell` may receive: one value, or a list, Series or array of values. */
  datatype RawValue = Atom(a: Scalar) | Items(items: seq<Scalar>)

  /** The characters `clean_regex` keeps; it deletes every other one. */
  predicate IsNumericChar(c: char) { IsDigit(c) || c == '.' || c == '(' || c == ')' || c == '-' }

  /** Lower-cased, trimmed texts that stand for "no value". */
  const Placeholders: seq<string> := ["-", "", "_", "none", "þ", "¨", "n/a", "nil", "."]

  /** `emergency_keywords`: words that mark a table as financial. */
  const EmergencyKeywords: seq<string> :=
    ["revenue", "income", "asset", "profit", "loss", "cash", "tax", "sales", "operating", "net", "ebitda"]

  // ---------------------------------------------------------------------
  // Cell normalizer
  // ---------------------------------------------------------------------

  /** Accounting convention: `(x)` and `x-` are both rewritten `-x`. */
  function AccountingSign(clean: string): string
  {
    if StartsWith(clean, "(") && EndsWith(clean, ")") then
      assert clean[0] == '(' && clean[|clean| - 1] == ')';
      "-" + clean[1..|clean| - 1]
    else if EndsWith(clean, "-") then "-" + clean[..|clean| - 1]
    else clean
  }

  /** What `clean_regex` leaves of the trimmed, lower-cased text of `raw`. */
  function Kept(raw: string): string
  {
    KeepOnly(Lower(Trim(raw)), IsNumericChar)
  }

  /**
   * `clean_cell` on a present value with text `raw`: placeholders become 0,
   * a parseable number is returned (divided by 100 under a '%'), and any
   * other text is returned trimmed with its case preserved.
   */
  function CleanText(raw: string): (c: Cell)
    ensures Lower(Trim(raw)) in Placeholders ==> c == Num(0.0)
    ensures c.Text? ==> c.s == Trim(raw)
  {
    var s := Lower(Trim(raw));
    if s in Placeholders then Num(0.0)
    else match CellNumber(s)
      case Some(v) => Num(v)
      case None => Text(Trim(raw))
  }

  /**
   * The number in the normalized text `s`: `float()` of what `clean_regex`
   * leaves after the sign rewriting, divided by 100 when `s` holds '%'.
   */
  function CellNumber(s: string): Option<real>
  {
    match ParseDecimal(AccountingSign(KeepOnly(s, IsNumericChar)))
    case Some(v) => Some(if '%' in s then Hundredth(v) else v)
    case None => None
  }

  /** `num / 100`, the value of a percentage. */
  function Hundredth(v: real): real
  {
    v / 100.0
  }

  function CleanScalar(a: Scalar): (c: Cell)
    ensures a.Null? ==> c == Num(0.0)
  {
    match a
    case Null => Num(0.0)
    case Str(s) => CleanText(s)
  }

  /**
   * `clean_cell`: a collection stands for its first element; an empty one
   * for the float 0.0, whose text "0.0" cleans to zero.
   */
  function CleanCell(v: RawValue): (c: Cell)
    ensures v.Items? && |v.items| == 0 ==> c == Num(0.0)
    ensures v.Items? && |v.items| > 0 ==> c == CleanScalar(v.items[0])
  {
    match v
    case Atom(a) => CleanScalar(a)
    case Items(xs) =>
      if |xs| > 0 then CleanScalar(xs[0])
      else
        ZeroTextIsZero();
        CleanText("0.0")
  }

  /** The text "0.0" of the float zero cleans to zero. */
  lemma {:induction false} ZeroTextIsZero()
    ensures CleanText("0.0") == Num(0.0)
  {
    ZeroText();
    PlainNumeralIsItself("0.0");
  }

  /** Digits with at most one '.', and optionally one leading '-'. */
  predicate PlainNumeral(d: string)
  {
    ParseDecimal(d).Some? && forall i :: 0 <= i < |d| ==> IsDigit(d[i]) || d[i] == '.' || (i == 0 && d[i] == '-')
  }

  /** No placeholder contains a digit, so a text with a digit is never one. */
  lemma {:induction false} DigitMeansNoPlaceholder(s: string)
    requires HasDigit(s)
    ensures s !in Placeholders
  {
    var i :| 0 <= i < |s| && IsDigit(s[i]);
  }

  /** The sign rewriting adds no digit. */
  lemma {:induction false} AccountingSignDigit(clean: string)
    requires HasDigit(AccountingSign(clean))
    ensures HasDigit(clean)
  {
    var r := AccountingSign(clean);
    var i :| 0 <= i < |r| && IsDigit(r[i]);
    if StartsWith(clean, "(") && EndsWith(clean, ")") {
      assert clean[0] == '(' && clean[|clean| - 1] == ')';
      assert r == "-" + clean[1..|clean| - 1];
      assert IsDigit(clean[i]);
    } else if EndsWith(clean, "-") {
      assert r == "-" + clean[..|clean| - 1];
      assert IsDigit(clean[i - 1]);
    } else {
      assert IsDigit(clean[i]);
    }
  }

  /** Every digit `clean_regex` keeps is a digit of the trimmed, lower-cased text. */
  lemma {:induction false} KeptDigit(raw: string)
    requires HasDigit(Kept(raw))
    ensures HasDigit(Lower(Trim(raw)))
  {
    var k := Kept(raw);
    var i :| 0 <= i < |k| && IsDigit(k[i]);
    assert k[i] in Lower(Trim(raw));
  }

  /** Trimming and lowering create no digit. */
  lemma {:induction false} LowerTrimDigit(raw: string)
    requires HasDigit(Lower(Trim(raw)))
    ensures HasDigit(raw)
  {
    var s := Lower(Trim(raw));
    var i :| 0 <= i < |s| && IsDigit(s[i]);
    assert s[i] == Trim(raw)[i];
    assert Trim(raw)[i] in raw;
  }

  /**
   * A cell is kept as a label exactly when it is no placeholder and what
   * `clean_regex` leaves of it is no number; the label is the cell trimmed,
   * with its case.
   */
  lemma {:induction false} TextIffUnparsed(raw: string)
    ensures CleanText(raw).Text? <==> Lower(Trim(raw)) !in Placeholders && CellNumber(Lower(Trim(raw))).None?
    ensures CleanText(raw).Text? ==> CleanText(raw) == Text(Trim(raw))
  {
  }

  /** A cell with no digit at all, other than a placeholder, is a label: it is kept trimmed, with its case. */
  lemma {:induction false} NoDigitIsText(raw: string)
    requires !HasDigit(raw) && Lower(Trim(raw)) !in Placeholders
    ensures CleanText(raw) == Text(Trim(raw))
  {
    if CellNumber(Lower(Trim(raw))).Some? {
      NumberHasDigit(raw);
      LowerTrimDigit(raw);
    }
  }

  /** A number comes only from a text with a digit. */
  lemma {:induction false} NumberHasDigit(raw: string)
    requires CellNumber(Lower(Trim(raw))).Some?
    ensures HasDigit(Lower(Trim(raw)))
  {
    AccountingSignDigit(Kept(raw));
    KeptDigit(raw);
  }

  /** A cell whose normalized text holds the number `x` cleans to `x`. */
  lemma {:induction false} CleanTextParsed(raw: string, x: real)
    requires CellNumber(Lower(Trim(raw))) == Some(x)
    ensures CleanText(raw) == Num(x)
  {
    NumberHasDigit(raw);
    DigitMeansNoPlaceholder(Lower(Trim(raw)));
  }

  /** Under '%' the number is a hundredth of what `float()` reads, otherwise exactly that. */
  lemma {:induction false} PercentScales(s: string, v: real)
    requires ParseDecimal(AccountingSign(KeepOnly(s, IsNumericChar))) == Some(v)
    ensures '%' !in s ==> CellNumber(s) == Some(v)
    ensures '%' in s ==> CellNumber(s) == Some(Hundredth(v))
  {
  }

  /** A plain numeral neither opens with '(' nor closes with '-'. */
  lemma {:induction false} PlainNumeralEnds(d: string)
    requires PlainNumeral(d)
    ensures HasDigit(d) && !StartsWith(d, "(") && !EndsWith(d, "-")
  {
    var i :| 0 <= i < |d| && IsDigit(d[i]);
    assert d[0] != '(';
    assert d[|d| - 1] != '-';
  }

  /**
   * Currency signs, separators, spaces and letters are ignored: a cell
   * without '%' from which `clean_regex` keeps a plain numeral is that number.
   */
  lemma {:induction false} SeparatorsIgnored(raw: string, d: string)
    requires PlainNumeral(d) && Kept(raw) == d && '%' !in Lower(Trim(raw))
    ensures CleanText(raw) == Num(ParseDecimal(d).value)
  {
    PlainNumeralEnds(d);
    assert AccountingSign(d) == d;
    PercentScales(Lower(Trim(raw)), ParseDecimal(d).value);
    CleanTextParsed(raw, ParseDecimal(d).value);
  }

  /** A cell with '%' from which `clean_regex` keeps a plain numeral is a hundredth of that number (`12.5 %`, `1,200%`). */
  lemma {:induction false} PercentIsHundredth(raw: string, d: string)
    requires PlainNumeral(d) && Kept(raw) == d && '%' in Lower(Trim(raw))
    ensures CleanText(raw) == Num(Hundredth(ParseDecimal(d).value))
  {
    PlainNumeralEnds(d);
    assert AccountingSign(d) == d;
    PercentScales(Lower(Trim(raw)), ParseDecimal(d).value);
    CleanTextParsed(raw, Hundredth(ParseDecimal(d).value));
  }

  /** A string of numeral characters is untouched by trimming, lowering and `clean_regex`. */
  lemma {:induction false} NumeralCharsUnchanged(d: string)
    requires forall i :: 0 <= i < |d| ==> IsNumericChar(d[i])
    ensures Lower(Trim(d)) == d && Kept(d) == d && '%' !in d
  {
    assert |d| > 0 ==> !IsSpace(d[0]) && !IsSpace(d[|d| - 1]);
    StripUnchanged(d, IsSpace);
    assert forall i :: 0 <= i < |d| ==> LowerChar(d[i]) == d[i];
    LowerUnchanged(d);
    assert forall i :: 0 <= i < |d| ==> d[i] != '%';
  }

  /** A cell that already holds a plain decimal number normalizes to that number. */
  lemma {:induction false} PlainNumeralIsItself(d: string)
    requires PlainNumeral(d)
    ensures CleanText(d) == Num(ParseDecimal(d).value)
  {
    NumeralCharsUnchanged(d);
    SeparatorsIgnored(d, d);
  }

  /** Wrapping an unsigned numeral in parentheses gives numeral characters. */
  lemma {:induction false} ParenthesizedChars(u: string, d: string)
    requires ParseUnsigned(u).Some? && d == "(" + u + ")"
    ensures forall i :: 0 <= i < |d| ==> IsNumericChar(d[i])
  {
  }

  /** An unsigned numeral with a trailing minus is numeral characters. */
  lemma {:induction false} TrailingMinusChars(u: string, d: string)
    requires ParseUnsigned(u).Some? && d == u + "-"
    ensures forall i :: 0 <= i < |d| ==> IsNumericChar(d[i])
  {
  }

  /** `clean_regex` output in either accounting form is rewritten as `-u`. */
  lemma {:induction false} AccountingForms(u: string)
    ensures AccountingSign("(" + u + ")") == "-" + u
    ensures AccountingSign(u + "-") == "-" + u
  {
    var d := "(" + u + ")";
    assert d[1..|d| - 1] == u;
    var e := u + "-";
    assert e[..|e| - 1] == u;
    assert !EndsWith(e, ")") by { assert e[|e| - 1] == '-'; }
  }

  /** The accounting form `(u)` of a negative amount. */
  function Parenthesized(u: string): string
  {
    "(" + u + ")"
  }

  /** The accounting form `u-` of a negative amount. */
  function TrailingMinus(u: string): string
  {
    u + "-"
  }

  /**
   * A cell from which `clean_regex` keeps either accounting form of the
   * unsigned numeral `u`, `(u)` or `u-` (so also `$ (1,234.5)` or `1 200-`),
   * normalizes to minus the value of `u`, a hundredth of it under '%'.
   */
  lemma {:induction false} NegatedFormParsed(raw: string, u: string, v: real)
    requires ParseUnsigned(u).Some? && v == -ParseUnsigned(u).value
    requires Kept(raw) == Parenthesized(u) || Kept(raw) == TrailingMinus(u)
    ensures '%' !in Lower(Trim(raw)) ==> CleanText(raw) == Num(v)
    ensures '%' in Lower(Trim(raw)) ==> CleanText(raw) == Num(Hundredth(v))
  {
    NegatedFormSign(Kept(raw), u, v);
    PercentScales(Lower(Trim(raw)), v);
    if '%' in Lower(Trim(raw)) {
      CleanTextParsed(raw, Hundredth(v));
    } else {
      CleanTextParsed(raw, v);
    }
  }

  /** Either accounting form of `u`, sign-rewritten, parses to minus the value of `u`. */
  lemma {:induction false} NegatedFormSign(c: string, u: string, v: real)
    requires ParseUnsigned(u).Some? && v == -ParseUnsigned(u).value
    requires c == Parenthesized(u) || c == TrailingMinus(u)
    ensures ParseDecimal(AccountingSign(c)) == Some(v)
  {
    AccountingForms(u);
    ParseNegated(u);
  }

  /** Appending '%' to numeral characters: trimming and lowering keep it, and `clean_regex` drops only it. */
  lemma {:induction false} PercentSuffix(d: string)
    requires forall i :: 0 <= i < |d| ==> IsNumericChar(d[i])
    requires |d| > 0
    ensures Lower(Trim(d + "%")) == d + "%"
    ensures Kept(d + "%") == d
  {
    var p := d + "%";
    StripUnchanged(p, IsSpace);
    LowerUnchanged(p);
    KeepOnlyConcat(d, "%", IsNumericChar);
    assert p[|p| - 1] == '%';
  }

  /** Normalizing the label a cell normalized to gives that label again. */
  lemma {:induction false} TextIsStable(raw: string)
    requires CleanText(raw).Text?
    ensures CleanText(CleanText(raw).s) == CleanText(raw)
  {
    TrimIdempotent(raw);
  }

  /** The accounting examples: `(1234.5)` and `500-` are negative, `45%` is a fraction. */
  lemma {:induction false} AccountingExamples(u: string, w: string, d: string, pu: string, mw: string, pd: string)
    requires u == "1234.5" && w == "500" && d == "45"
    requires pu == Parenthesized(u) && mw == TrailingMinus(w) && pd == d + "%"
    ensures CleanText(pu) == Num(-1234.5)
    ensures CleanText(mw) == Num(-500.0)
    ensures CleanText(pd) == Num(0.45)
  {
    ExampleDecimal(u);
    NegatedExample(u, pu, -1234.5);
    ExampleWhole(w);
    NegatedExample(w, mw, -500.0);
    ExamplePercent(d);
    PercentExample(d, pd);
  }

  /** A cell that is exactly an accounting form of `u` normalizes to minus the value of `u`. */
  lemma {:induction false} NegatedExample(u: string, c: string, v: real)
    requires ParseUnsigned(u).Some? && v == -ParseUnsigned(u).value
    requires c == Parenthesized(u) || c == TrailingMinus(u)
    ensures CleanText(c) == Num(v)
  {
    if c == Parenthesized(u) {
      ParenthesizedChars(u, c);
    } else {
      TrailingMinusChars(u, c);
    }
    NumeralCharsUnchanged(c);
    NegatedFormParsed(c, u, v);
  }

  /** A cell that is exactly a plain numeral followed by '%' normalizes to a hundredth of it. */
  lemma {:induction false} PercentExample(d: string, p: string)
    requires PlainNumeral(d) && p == d + "%"
    ensures CleanText(p) == Num(Hundredth(ParseDecimal(d).value))
  {
    PercentFacts(d, p);
    PercentIsHundredth(p, d);
  }

  /** Trimming and lowering keep the '%' after a plain numeral, and `clean_regex` keeps the numeral. */
  lemma {:induction false} PercentFacts(d: string, p: string)
    requires PlainNumeral(d) && p == d + "%"
    ensures '%' in Lower(Trim(p)) && Kept(p) == d
  {
    assert forall i :: 0 <= i < |d| ==> IsNumericChar(d[i]);
    PercentSuffix(d);
    assert p[|p| - 1] == '%';
  }

  /** `1234.5` parses to 1234.5. */
  lemma {:induction false} ExampleDecimal(u: string)
    requires u == "1234.5"
    ensures ParseUnsigned(u) == Some(1234.5)
  {
    Digits1234();
    DotIndexFirst(u, 4);
    assert u[..4] == "1234";
    assert u[5..] == "5";
    assert FractionValue("5") == 0.5;
  }

  /** `45` parses to 45. */
  lemma {:induction false} ExamplePercent(d: string)
    requires d == "45"
    ensures ParseDecimal(d) == Some(45.0) && PlainNumeral(d) && Hundredth(ParseDecimal(d).value) == 0.45
  {
    DigitsAppend("4", '5');
    assert "4" + ['5'] == d;
    DotIndexFirst(d, 2);
    assert d[..2] == d;
  }

  lemma {:induction false} Digits1234()
    ensures AllDigits("1234") && DigitsValue("1234") == 1234
  {
    assert DigitsValue("1") == 1;
    DigitsAppend("1", '2');
    assert "1" + ['2'] == "12";
    DigitsAppend("12", '3');
    assert "12" + ['3'] == "123";
    DigitsAppend("123", '4');
    assert "123" + ['4'] == "1234";
  }

  // ---------------------------------------------------------------------
  // Markdown table parser
  // ---------------------------------------------------------------------

  /** A parsed table: column labels and data rows, ragged rows padded with `Null`. */
  datatype ParsedTable = ParsedTable(columns: seq<string>, rows: seq<seq<Scalar>>)

  predicate IsPipe(c: char) { c == '|' }

  /** The lines of a markdown fragment: `md_content.strip().split('\n')`. */
  function Lines(md: string): seq<string>
  {
    Split(Trim(md), '\n')
  }

  /** The stripped cells of one table line: outer pipes removed, split on '|'. */
  function LineCells(line: string): (cells: seq<string>)
    ensures |cells| >= 1
    ensures forall k :: 0 <= k < |cells| ==> '|' !in cells[k]
  {
    var parts := Split(Strip(Trim(line), IsPipe), '|');
    seq(|parts|, k requires 0 <= k < |parts| => Trim(parts[k]))
  }

  /**
   * A line written `|c0|c1|...|` gives the pieces between the pipes,
   * trimmed: the first and last pieces must not be empty, or `strip('|')`
   * would also eat the pipe next to them.
   */
  lemma {:induction false} LineCellsOfJoin(cs: seq<string>, line: string)
    requires |cs| >= 1 && cs[0] != "" && cs[|cs| - 1] != ""
    requires forall k :: 0 <= k < |cs| ==> '|' !in cs[k]
    requires line == "|" + Join(cs, "|") + "|"
    ensures |LineCells(line)| == |cs|
    ensures forall k :: 0 <= k < |cs| ==> LineCells(line)[k] == Trim(cs[k])
  {
    var j := Join(cs, "|");
    JoinStartsWith(cs, "|");
    JoinEndsWith(cs, "|");
    var first, last := cs[0], cs[|cs| - 1];
    assert j[0] == first[0];
    assert j[|j| - 1] == last[|last| - 1];
    OuterPipesStripped(j, line);
    SplitJoin(cs, '|');
  }

  /** Trimming and `strip('|')` remove exactly the outer pipes of `|j|` when `j` neither starts nor ends with one. */
  lemma {:induction false} OuterPipesStripped(j: string, line: string)
    requires |j| > 0 && !IsPipe(j[0]) && !IsPipe(j[|j| - 1])
    requires line == "|" + j + "|"
    ensures Strip(Trim(line), IsPipe) == j
  {
    StripUnchanged(line, IsSpace);
    assert line[1..] == j + "|";
    assert StripLeft(line, IsPipe) == j + "|";
    assert (j + "|")[..|j|] == j;
    assert StripRight(j + "|", IsPipe) == j;
  }

  /** A cell written only with '-', ':' and spaces (the empty cell included). */
  predicate IsSeparatorCell(c: string)
  {
    forall k :: 0 <= k < |c| ==> c[k] == '-' || c[k] == ':' || c[k] == ' '
  }

  /** A `|---|:---:|` line, or a line of empty cells. */
  predicate IsSeparatorRow(cells: seq<string>)
  {
    forall k :: 0 <= k < |cells| ==> IsSeparatorCell(cells[k])
  }

  /** Whether a line is kept as a table row. */
  predicate IsTableRow(line: string)
  {
    '|' in line && !IsSeparatorRow(LineCells(line))
  }

  /** The rows the parser keeps from `lines`, in order. */
  function KeptRows(lines: seq<string>): (rows: seq<seq<string>>)
    ensures |rows| <= |lines|
    ensures forall k :: 0 <= k < |rows| ==> !IsSeparatorRow(rows[k])
  {
    if |lines| == 0 then []
    else
      var last := lines[|lines| - 1];
      KeptRows(lines[..|lines| - 1]) + (if IsTableRow(last) then [LineCells(last)] else [])
  }

  /** The number of lines that contain a '|'. */
  function PipeLineCount(lines: seq<string>): nat
  {
    if |lines| == 0 then 0
    else PipeLineCount(lines[..|lines| - 1]) + (if '|' in lines[|lines| - 1] then 1 else 0)
  }

  /** No more rows are kept than there are lines with a pipe. */
  lemma {:induction false} KeptRowsCounted(lines: seq<string>)
    ensures |KeptRows(lines)| <= PipeLineCount(lines)
  {
    if |lines| > 0 {
      KeptRowsCounted(lines[..|lines| - 1]);
    }
  }

  /** `row` is the cells of some line of `lines` that has a pipe. */
  predicate FromPipeLine(row: seq<string>, lines: seq<string>)
  {
    exists n :: 0 <= n < |lines| && '|' in lines[n] && row == LineCells(lines[n])
  }

  /** A row read from the earlier lines is still read from the longer fragment. */
  lemma {:induction false} FromPipeLineExtends(row: seq<string>, lines: seq<string>)
    requires |lines| > 0 && FromPipeLine(row, lines[..|lines| - 1])
    ensures FromPipeLine(row, lines)
  {
    var n :| 0 <= n < |lines| - 1 && '|' in lines[..|lines| - 1][n] && row == LineCells(lines[..|lines| - 1][n]);
    assert lines[..|lines| - 1][n] == lines[n];
  }

  /** Every kept row is the cells of some line with a pipe. */
  lemma {:induction false} KeptRowsFromPipeLines(lines: seq<string>)
    ensures forall k :: 0 <= k < |KeptRows(lines)| ==> FromPipeLine(KeptRows(lines)[k], lines)
  {
    if |lines| > 0 {
      var init, last := lines[..|lines| - 1], lines[|lines| - 1];
      KeptRowsFromPipeLines(init);
      var rows, front := KeptRows(lines), KeptRows(init);
      assert rows == front + (if IsTableRow(last) then [LineCells(last)] else []);
      forall k | 0 <= k < |rows|
        ensures FromPipeLine(rows[k], lines)
      {
        if k < |front| {
          assert rows[k] == front[k];
          FromPipeLineExtends(rows[k], lines);
        } else {
          assert IsTableRow(last) && rows[k] == LineCells(last);
          assert lines[|lines| - 1] == last;
        }
      }
    } else {
      assert KeptRows(lines) == [];
    }
  }

  /** A fragment in which no line has a pipe gives no table. */
  lemma {:induction false} NoPipeNoTable(md: string)
    requires forall n :: 0 <= n < |Lines(md)| ==> '|' !in Lines(md)[n]
    ensures MarkdownTable(md).None?
  {
    NoPipeLinesCounted(Lines(md));
    KeptRowsCounted(Lines(md));
  }

  lemma {:induction false} NoPipeLinesCounted(lines: seq<string>)
    requires forall n :: 0 <= n < |lines| ==> '|' !in lines[n]
    ensures PipeLineCount(lines) == 0
  {
    if |lines| > 0 {
      NoPipeLinesCounted(lines[..|lines| - 1]);
    }
  }

  /** The widest row: the column count of the data frame. */
  function MaxWidth(rows: seq<seq<string>>): (w: nat)
    ensures forall k :: 0 <= k < |rows| ==> |rows[k]| <= w
  {
    if |rows| == 0 then 0
    else
      var w := MaxWidth(rows[..|rows| - 1]);
      if |rows[|rows| - 1]| > w then |rows[|rows| - 1]| else w
  }

  /** The label of column `i`: the header cell, or `Col_<i>` when it is blank or missing. */
  function Label(header: seq<string>, i: nat): (l: string)
    ensures l != ""
    ensures i < |header| && header[i] != "" ==> l == header[i]
    ensures i >= |header| || header[i] == "" ==> l == "Col_" + NatToString(i)
  {
    if i < |header| && header[i] != "" then header[i] else "Col_" + NatToString(i)
  }

  /** Blank or missing header cells in different columns get different labels. */
  lemma {:induction false} BlankLabelsDistinct(header: seq<string>, i: nat, j: nat)
    requires i >= |header| || header[i] == ""
    requires j >= |header| || header[j] == ""
    requires i != j
    ensures Label(header, i) != Label(header, j)
  {
    var li, lj := Label(header, i), Label(header, j);
    NatToStringValue(i);
    NatToStringValue(j);
    assert li[4..] == NatToString(i) && lj[4..] == NatToString(j);
    assert NatToString(i) != NatToString(j);
  }

  /** One row of the data frame: the row's cells, padded with missing values. */
  function Padded(row: seq<string>, w: nat): (r: seq<Scalar>)
    requires |row| <= w
    ensures |r| == w
    ensures forall i :: 0 <= i < |row| ==> r[i] == Str(row[i])
    ensures forall i :: |row| <= i < w ==> r[i] == Null
  {
    seq(w, i requires 0 <= i < w => if i < |row| then Str(row[i]) else Null)
  }

  /** The data frame built from the kept rows: the first gives the labels, the rest the data. */
  function BuildTable(kept: seq<seq<string>>): (t: ParsedTable)
    requires |kept| >= 1
    ensures |t.rows| == |kept| - 1
    ensures |t.columns| == MaxWidth(kept)
    ensures forall i :: 0 <= i < |t.columns| ==> t.columns[i] == Label(kept[0], i)
    ensures forall j :: 0 <= j < |t.rows| ==> t.rows[j] == Padded(kept[j + 1], |t.columns|)
  {
    var w := MaxWidth(kept);
    ParsedTable(seq(w, i requires 0 <= i < w => Label(kept[0], i)),
                seq(|kept| - 1, j requires 0 <= j < |kept| - 1 => Padded(kept[j + 1], w)))
  }

  /** `parse_markdown_table`: no table when fewer than two rows are kept. */
  function MarkdownTable(md: string): (t: Option<ParsedTable>)
    ensures t.None? <==> |KeptRows(Lines(md))| < 2
    ensures t.Some? ==> |t.value.rows| == |KeptRows(Lines(md))| - 1
    ensures t.Some? ==> forall i :: 0 <= i < |t.value.columns| ==> t.value.columns[i] != ""
    ensures t.Some? ==> forall j :: 0 <= j < |t.value.rows| ==> |t.value.rows[j]| == |t.value.columns|
  {
    var kept := KeptRows(Lines(md));
    if |kept| < 2 then None else Some(BuildTable(kept))
  }

  /** The parser, line by line, collecting the kept rows. */
  method ParseMarkdownTable(md: string) returns (t: Option<ParsedTable>)
    ensures t == MarkdownTable(md)
  {
    var lines := Lines(md);
    var rows: seq<seq<string>> := [];
    for n := 0 to |lines|
      invariant rows == KeptRows(lines[..n])
    {
      KeptRowsStep(lines, n);
      var line := lines[n];
      if '|' in line {
        var cells := LineCells(line);
        if !IsSeparatorRow(cells) {
          rows := rows + [cells];
        }
      }
    }
    assert lines[..|lines|] == lines;
    if |rows| < 2 {
      return None;
    }
    t := Some(BuildTable(rows));
  }

  /** Reading line `n` adds its cells exactly when it is a table row. */
  lemma {:induction false} KeptRowsStep(lines: seq<string>, n: nat)
    requires n < |lines|
    ensures KeptRows(lines[..n + 1]) == KeptRows(lines[..n]) + (if IsTableRow(lines[n]) then [LineCells(lines[n])] else [])
  {
    assert lines[..n + 1][..n] == lines[..n];
  }

  /** A cell that can be written between pipes and read back unchanged. */
  predicate PlainCell(x: string)
  {
    x != "" && '|' !in x && '\n' !in x && !IsSpace(x[0]) && !IsSpace(x[|x| - 1])
  }

  /** The line `| x | y |`. */
  function PaddedRow(x: string, y: string): string
  {
    "| " + x + " | " + y + " |"
  }

  /** Padding a cell with one space on each side is undone by trimming. */
  lemma {:induction false} TrimPadded(x: string)
    requires PlainCell(x)
    ensures Trim(" " + x + " ") == x
  {
    var p := " " + x + " ";
    assert p[1..] == x + " ";
    assert StripLeft(x + " ", IsSpace) == x + " ";
    assert StripLeft(p, IsSpace) == x + " ";
    assert (x + " ")[..|x|] == x;
    assert StripRight(x + " ", IsSpace) == x;
  }

  /** The line `| x | y |` splits into the cells `x` and `y`. */
  lemma {:induction false} PaddedRowCells(x: string, y: string)
    requires PlainCell(x) && PlainCell(y)
    ensures LineCells(PaddedRow(x, y)) == [x, y]
  {
    var cs := [" " + x + " ", " " + y + " "];
    assert Join(cs, "|") == cs[0] + "|" + cs[1];
    assert PaddedRow(x, y) == "|" + Join(cs, "|") + "|";
    LineCellsOfJoin(cs, PaddedRow(x, y));
    var c := LineCells(PaddedRow(x, y));
    TrimPadded(x);
    TrimPadded(y);
    assert |c| == 2 && c[0] == x && c[1] == y;
    PairOfCells(c);
  }

  /** The line `|x|y|`. */
  function BareRow(x: string, y: string): string
  {
    "|" + x + "|" + y + "|"
  }

  /** The line `|x|y|` splits into the cells `x` and `y`. */
  lemma {:induction false} BareRowCells(x: string, y: string)
    requires PlainCell(x) && PlainCell(y)
    ensures LineCells(BareRow(x, y)) == [x, y]
  {
    var cs := [x, y];
    assert Join(cs, "|") == x + "|" + y;
    assert BareRow(x, y) == "|" + Join(cs, "|") + "|";
    LineCellsOfJoin(cs, BareRow(x, y));
    var c := LineCells(BareRow(x, y));
    StripUnchanged(x, IsSpace);
    StripUnchanged(y, IsSpace);
    assert |c| == 2 && c[0] == x && c[1] == y;
    PairOfCells(c);
  }

  /** Two cells are the pair of their elements. */
  lemma {:induction false} PairOfCells(c: seq<string>)
    requires |c| == 2
    ensures c == [c[0], c[1]]
  {
  }

  /** The lines of a fragment written line by line, with no space at its ends. */
  lemma {:induction false} LinesOfJoin(rows: seq<string>, md: string)
    requires |rows| >= 1 && rows[0] != "" && rows[|rows| - 1] != ""
    requires !IsSpace(rows[0][0]) && !IsSpace(rows[|rows| - 1][|rows[|rows| - 1]| - 1])
    requires forall k :: 0 <= k < |rows| ==> '\n' !in rows[k]
    requires md == Join(rows, "\n")
    ensures Lines(md) == rows
  {
    JoinStartsWith(rows, "\n");
    JoinEndsWith(rows, "\n");
    var first, last := rows[0], rows[|rows| - 1];
    assert md[0] == first[0];
    assert md[|md| - 1] == last[|last| - 1];
    StripUnchanged(md, IsSpace);
    SplitJoin(rows, '\n');
  }

  /**
   * A two-column markdown table with a separator line such as `|---|---|`
   * and two data lines parses to a frame labelled by the header cells, whose two
   * rows are the data cells.
   */
  lemma {:induction false} TwoColumnTable(x0: string, x1: string, a0: string, a1: string, b0: string, b1: string, d: string, md: string)
    requires PlainCell(x0) && PlainCell(x1) && PlainCell(a0) && PlainCell(a1) && PlainCell(b0) && PlainCell(b1)
    requires !IsSeparatorCell(x0) && !IsSeparatorCell(a0) && !IsSeparatorCell(b0)
    requires PlainCell(d) && IsSeparatorCell(d)
    requires md == PaddedRow(x0, x1) + "\n" + BareRow(d, d) + "\n" + PaddedRow(a0, a1) + "\n" + PaddedRow(b0, b1)
    ensures MarkdownTable(md) == Some(ParsedTable([x0, x1], [[Str(a0), Str(a1)], [Str(b0), Str(b1)]]))
  {
    var lines := [PaddedRow(x0, x1), BareRow(d, d), PaddedRow(a0, a1), PaddedRow(b0, b1)];
    TableLines(lines, md);
    PaddedRowCells(x0, x1);
    PaddedRowCells(a0, a1);
    PaddedRowCells(b0, b1);
    BareRowCells(d, d);
    var kept := [[x0, x1], [a0, a1], [b0, b1]];
    RowKept(lines[0], x0, x1);
    RowKept(lines[2], a0, a1);
    RowKept(lines[3], b0, b1);
    SeparatorDropped(lines[1], d);
    TableRowsKept(lines, kept);
    PairTable(kept, x0, x1, a0, a1, b0, b1);
  }

  /** Three kept rows of two non-empty cells build a two-column table of two data rows. */
  lemma {:induction false} PairTable(kept: seq<seq<string>>, x0: string, x1: string, a0: string, a1: string, b0: string, b1: string)
    requires x0 != "" && x1 != ""
    requires kept == [[x0, x1], [a0, a1], [b0, b1]]
    ensures BuildTable(kept) == ParsedTable([x0, x1], [[Str(a0), Str(a1)], [Str(b0), Str(b1)]])
  {
    assert MaxWidth(kept[..1]) == 2;
    assert kept[..2][..1] == kept[..1];
    assert MaxWidth(kept[..2]) == 2;
    assert kept[..3][..2] == kept[..2];
    assert kept[..3] == kept;
    assert MaxWidth(kept) == 2;
    var t := BuildTable(kept);
    assert t.columns == [x0, x1];
    assert t.rows[0] == [Str(a0), Str(a1)];
    assert t.rows[1] == [Str(b0), Str(b1)];
  }

  /** The four lines of the two-column table are what `Lines` finds. */
  lemma {:induction false} TableLines(lines: seq<string>, md: string)
    requires |lines| == 4 && forall k :: 0 <= k < 4 ==> '\n' !in lines[k]
    requires lines[0] != "" && lines[0][0] == '|' && lines[3] != "" && lines[3][|lines[3]| - 1] == '|'
    requires md == lines[0] + "\n" + lines[1] + "\n" + lines[2] + "\n" + lines[3]
    ensures Lines(md) == lines
  {
    assert Join(lines[3..], "\n") == lines[3];
    assert Join(lines[2..], "\n") == lines[2] + "\n" + lines[3];
    assert Join(lines[1..], "\n") == lines[1] + "\n" + lines[2] + "\n" + lines[3];
    LinesOfJoin(lines, md);
  }

  /** Of the four lines, the header and the two data lines are kept and the separator line is dropped. */
  lemma {:induction false} TableRowsKept(lines: seq<string>, kept: seq<seq<string>>)
    requires |lines| == 4 && |kept| == 3
    requires IsTableRow(lines[0]) && !IsTableRow(lines[1]) && IsTableRow(lines[2]) && IsTableRow(lines[3])
    requires LineCells(lines[0]) == kept[0] && LineCells(lines[2]) == kept[1] && LineCells(lines[3]) == kept[2]
    ensures KeptRows(lines) == kept
  {
    assert lines[..0] == [];
    KeptRowsStep(lines, 0);
    assert KeptRows(lines[..1]) == [kept[0]];
    KeptRowsStep(lines, 1);
    assert KeptRows(lines[..2]) == [kept[0]];
    KeptRowsStep(lines, 2);
    assert KeptRows(lines[..3]) == [kept[0]] + [kept[1]];
    KeptRowsStep(lines, 3);
    assert KeptRows(lines[..4]) == [kept[0]] + [kept[1]] + [kept[2]];
    WholeSlice(lines);
    TripleOfRows(kept);
  }

  /** The slice up to the length is the whole sequence. */
  lemma {:induction false} WholeSlice(lines: seq<string>)
    ensures lines[..|lines|] == lines
  {
  }

  /** A line with a pipe whose first cell is no separator cell is kept. */
  lemma {:induction false} RowKept(line: string, x: string, y: string)
    requires line != "" && line[0] == '|'
    requires LineCells(line) == [x, y] && !IsSeparatorCell(x)
    ensures IsTableRow(line)
  {
    assert LineCells(line)[0] == x;
  }

  /** A line whose two cells are both separator cells is dropped. */
  lemma {:induction false} SeparatorDropped(line: string, d: string)
    requires LineCells(line) == [d, d] && IsSeparatorCell(d)
    ensures !IsTableRow(line)
  {
    PairIsSeparatorRow(LineCells(line), d);
  }

  lemma {:induction false} PairIsSeparatorRow(cells: seq<string>, d: string)
    requires cells == [d, d] && IsSeparatorCell(d)
    ensures IsSeparatorRow(cells)
  {
    forall k | 0 <= k < |cells|
      ensures IsSeparatorCell(cells[k])
    {
      assert cells[k] == d;
    }
  }

  /** Three rows are the triple of their elements. */
  lemma {:induction false} TripleOfRows(kept: seq<seq<string>>)
    requires |kept| == 3
    ensures kept == [kept[0]] + [kept[1]] + [kept[2]]
  {
  }

  /** A one-character cell other than a space, pipe, newline, dash or colon is a plain, non-separator cell. */
  lemma {:induction false} LetterCell(x: string, c: char)
    requires x == [c] && c != '|' && c != '\n' && !IsSpace(c) && c != '-' && c != ':'
    ensures PlainCell(x) && !IsSeparatorCell(x)
  {
    assert x[0] == c;
  }

  /** The three-row example: header `a | b`, then `1 | 2` and `3 | 4`. */
  lemma {:induction false} MarkdownExample(md: string, d: string)
    requires d == "---"
    requires md == "| a | b |" + "\n" + "|" + d + "|" + d + "|" + "\n" + "| 1 | 2 |" + "\n" + "| 3 | 4 |"
    ensures MarkdownTable(md) == Some(ParsedTable(["a", "b"], [[Str("1"), Str("2")], [Str("3"), Str("4")]]))
  {
    assert "| a | b |" == PaddedRow("a", "b");
    assert "| 1 | 2 |" == PaddedRow("1", "2");
    assert "| 3 | 4 |" == PaddedRow("3", "4");
    assert md == PaddedRow("a", "b") + "\n" + BareRow(d, d) + "\n" + PaddedRow("1", "2") + "\n" + PaddedRow("3", "4");
    LetterCell("a", 'a');
    LetterCell("b", 'b');
    LetterCell("1", '1');
    LetterCell("2", '2');
    LetterCell("3", '3');
    LetterCell("4", '4');
    assert PlainCell(d) && IsSeparatorCell(d);
    TwoColumnTable("a", "b", "1", "2", "3", "4", d, md);
  }

  // ---------------------------------------------------------------------
  // Table qualifier
  // ---------------------------------------------------------------------

  /** A parsed table after `df.map(clean_cell)`. */
  datatype CleanTable = CleanTable(columns: seq<string>, cells: seq<seq<Cell>>)

  /** Every row has one cell per column, as in a data frame. */
  predicate Rectangular(t: CleanTable)
  {
    forall j :: 0 <= j < |t.cells| ==> |t.cells[j]| == |t.columns|
  }

  /** `df.map(clean_cell)`: every cell normalized, the labels kept. */
  function CleanParsed(p: ParsedTable): (t: CleanTable)
    ensures t.columns == p.columns && |t.cells| == |p.rows|
    ensures forall j :: 0 <= j < |p.rows| ==> |t.cells[j]| == |p.rows[j]|
    ensures forall j, i :: 0 <= j < |p.rows| && 0 <= i < |p.rows[j]| ==> t.cells[j][i] == CleanScalar(p.rows[j][i])
  {
    CleanTable(p.columns, seq(|p.rows|, j requires 0 <= j < |p.rows| =>
      seq(|p.rows[j]|, i requires 0 <= i < |p.rows[j]| => CleanScalar(p.rows[j][i]))))
  }

  /** `str()` of a cell; `render` stands for Python's `repr` of a float. */
  function RenderCell(c: Cell, render: real -> string): string
  {
    match c
    case Num(r) => render(r)
    case Text(s) => s
  }

  /** The rendered cells of `rows`, row by row (`.astype(str).values.flatten()`). */
  function Flattened(rows: seq<seq<Cell>>, render: real -> string): seq<string>
  {
    if |rows| == 0 then []
    else
      var row := rows[|rows| - 1];
      Flattened(rows[..|rows| - 1], render) + seq(|row|, i requires 0 <= i < |row| => RenderCell(row[i], render))
  }

  /** The rendered cells of the first three rows (`df.head(3)`). */
  function TopCells(cells: seq<seq<Cell>>, render: real -> string): seq<string>
  {
    Flattened(cells[..if |cells| < 3 then |cells| else 3], render)
  }

  /** `full_context`: the lower-cased labels, a space, then the lower-cased top cells. */
  function Context(t: CleanTable, render: real -> string): string
  {
    Lower(Join(t.columns, " ")) + " " + Lower(Join(TopCells(t.cells, render), " "))
  }

  /** A match of `(201\d|202\d|q[1-4]|fiscal|year|ended)` starting at position `i`. */
  predicate TimeMarkerAt(s: string, i: nat)
    requires i <= |s|
  {
    var t := s[i..];
    (|t| >= 4 && (t[..3] == "201" || t[..3] == "202") && IsDigit(t[3]))
    || (|t| >= 2 && t[0] == 'q' && '1' <= t[1] <= '4')
    || StartsWith(t, "fiscal") || StartsWith(t, "year") || StartsWith(t, "ended")
  }

  /** `has_time`: the regular expression matches somewhere. */
  predicate HasTimeMarker(s: string)
  {
    exists i: nat :: i <= |s| && TimeMarkerAt(s, i)
  }

  /** `has_fin`: some emergency keyword is a substring. */
  predicate HasFinancialKeyword(s: string)
  {
    exists k :: 0 <= k < |EmergencyKeywords| && Contains(s, EmergencyKeywords[k])
  }

  /** `check_num`: a number other than zero. */
  predicate IsNonzeroNumber(c: Cell) { c.Num? && c.r != 0.0 }

  function RowNumbers(row: seq<Cell>): (n: nat)
    ensures n <= |row|
  {
    if |row| == 0 then 0
    else RowNumbers(row[..|row| - 1]) + (if IsNonzeroNumber(row[|row| - 1]) then 1 else 0)
  }

  /** `num_count`: the nonzero numbers of the table. */
  function NumberCount(cells: seq<seq<Cell>>): nat
  {
    if |cells| == 0 then 0
    else NumberCount(cells[..|cells| - 1]) + RowNumbers(cells[|cells| - 1])
  }

  /** `density`: nonzero numbers per cell, 0 for a table without cells. */
  function Density(t: CleanTable): real
  {
    var size := |t.cells| * |t.columns|;
    if size > 0 then NumberCount(t.cells) as real / size as real else 0.0
  }

  /**
   * `is_high_quality`: an empty or one-column table is rejected; otherwise
   * a time marker needs density above 2%, a financial keyword above 5%,
   * and any table passes above 20%.
   */
  function IsHighQuality(t: CleanTable, render: real -> string): (ok: bool)
    ensures ok ==> |t.cells| > 0 && |t.columns| >= 2 && Density(t) > 0.02
    ensures ok && !HasTimeMarker(Context(t, render)) ==> Density(t) > 0.05
    ensures ok && !HasTimeMarker(Context(t, render)) && !HasFinancialKeyword(Context(t, render)) ==> Density(t) > 0.2
    ensures |t.cells| > 0 && |t.columns| >= 2 && Density(t) > 0.2 ==> ok
    ensures |t.cells| > 0 && |t.columns| >= 2 && HasTimeMarker(Context(t, render)) && Density(t) > 0.02 ==> ok
    ensures |t.cells| > 0 && |t.columns| >= 2 && HasFinancialKeyword(Context(t, render)) && Density(t) > 0.05 ==> ok
  {
    if |t.cells| == 0 || |t.columns| < 2 then false
    else
      var ctx := Context(t, render);
      var density := Density(t);
      if HasTimeMarker(ctx) && density > 0.02 then true
      else if HasFinancialKeyword(ctx) && density > 0.05 then true
      else density > 0.2
  }

  /** Every rendered cell of `rows` has a place in the flattening. */
  lemma {:induction false} FlattenedHas(rows: seq<seq<Cell>>, render: real -> string, j: nat, i: nat) returns (p: nat)
    requires j < |rows| && i < |rows[j]|
    ensures p < |Flattened(rows, render)| && Flattened(rows, render)[p] == RenderCell(rows[j][i], render)
    decreases |rows|
  {
    var init := rows[..|rows| - 1];
    if j < |rows| - 1 {
      assert init[j] == rows[j];
      p := FlattenedHas(init, render, j, i);
    } else {
      p := |Flattened(init, render)| + i;
    }
  }

  /** The context holds every column label, lower-cased. */
  lemma {:induction false} ContextHasLabel(t: CleanTable, render: real -> string, i: nat)
    requires i < |t.columns|
    ensures Contains(Context(t, render), Lower(t.columns[i]))
  {
    var labels := Join(t.columns, " ");
    JoinContains(t.columns, " ", i);
    LowerContains(labels, t.columns[i]);
    assert Context(t, render) == "" + Lower(labels) + (" " + Lower(Join(TopCells(t.cells, render), " ")));
    ContainsIn("", Lower(labels), " " + Lower(Join(TopCells(t.cells, render), " ")), Lower(t.columns[i]));
  }

  /** The context holds every cell of the first three rows, rendered and lower-cased. */
  lemma {:induction false} ContextHasCell(t: CleanTable, render: real -> string, j: nat, i: nat)
    requires j < 3 && j < |t.cells| && i < |t.cells[j]|
    ensures Contains(Context(t, render), Lower(RenderCell(t.cells[j][i], render)))
  {
    var top := t.cells[..if |t.cells| < 3 then |t.cells| else 3];
    assert top[j] == t.cells[j];
    var p := FlattenedHas(top, render, j, i);
    var cells := Join(TopCells(t.cells, render), " ");
    JoinContains(TopCells(t.cells, render), " ", p);
    LowerContains(cells, RenderCell(t.cells[j][i], render));
    assert Context(t, render) == Lower(Join(t.columns, " ")) + " " + Lower(cells) + "";
    ContainsIn(Lower(Join(t.columns, " ")) + " ", Lower(cells), "", Lower(RenderCell(t.cells[j][i], render)));
  }

  /**
   * A "Total Revenue" label makes the context financial, so such a table
   * of two or more columns passes at a density above 5%.
   */
  lemma {:induction false} RevenueLabelFinancial(t: CleanTable, render: real -> string, i: nat, heading: string)
    requires heading == "Total Revenue"
    requires i < |t.columns| && t.columns[i] == heading
    ensures HasFinancialKeyword(Context(t, render))
    ensures |t.cells| > 0 && |t.columns| >= 2 && Density(t) > 0.05 ==> IsHighQuality(t, render)
  {
    ContextHasLabel(t, render, i);
    assert Lower(heading)[6..13] == "revenue";
    ContainsAt(Lower(heading), "revenue", 6);
    ContainsTransitive(Context(t, render), Lower(heading), "revenue");
    assert EmergencyKeywords[0] == "revenue";
  }

  /** A row holds no more nonzero numbers than a table of its width allows. */
  lemma {:induction false} NumberCountBound(cells: seq<seq<Cell>>, w: nat)
    requires forall j :: 0 <= j < |cells| ==> |cells[j]| == w
    ensures NumberCount(cells) <= |cells| * w
  {
    if |cells| > 0 {
      NumberCountBound(cells[..|cells| - 1], w);
    }
  }

  /** The density of a data frame is a fraction between 0 and 1. */
  lemma {:induction false} DensityIsFraction(t: CleanTable)
    requires Rectangular(t)
    ensures 0.0 <= Density(t) <= 1.0
  {
    var size := |t.cells| * |t.columns|;
    if size > 0 {
      NumberCountBound(t.cells, |t.columns|);
      RatioIsFraction(NumberCount(t.cells) as real, size as real);
    }
  }

  /** Replacing cell `i` of row `j` changes the count by the difference of the two cells. */
  lemma {:induction false} RowNumbersUpdate(row: seq<Cell>, i: nat, c: Cell)
    requires i < |row|
    ensures RowNumbers(row[i := c]) + (if IsNonzeroNumber(row[i]) then 1 else 0)
         == RowNumbers(row) + (if IsNonzeroNumber(c) then 1 else 0)
  {
    var n := |row| - 1;
    if i < n {
      assert row[i := c][..n] == row[..n][i := c];
      RowNumbersUpdate(row[..n], i, c);
    } else {
      assert row[i := c][..n] == row[..n];
    }
  }

  lemma {:induction false} NumberCountUpdate(cells: seq<seq<Cell>>, j: nat, row: seq<Cell>)
    requires j < |cells|
    ensures NumberCount(cells[j := row]) + RowNumbers(cells[j]) == NumberCount(cells) + RowNumbers(row)
  {
    var n := |cells| - 1;
    if j < n {
      assert cells[j := row][..n] == cells[..n][j := row];
      NumberCountUpdate(cells[..n], j, row);
    } else {
      assert cells[j := row][..n] == cells[..n];
    }
  }

  /** Only the first three rows enter the context. */
  lemma {:induction false} ContextIgnoresLaterRows(t: CleanTable, j: nat, row: seq<Cell>, render: real -> string)
    requires 3 <= j < |t.cells|
    ensures Context(CleanTable(t.columns, t.cells[j := row]), render) == Context(t, render)
  {
    assert t.cells[j := row][..3] == t.cells[..3];
  }

  /** One more nonzero number in a table with cells raises its density. */
  lemma {:induction false} DensityGrows(t: CleanTable, u: CleanTable)
    requires |t.cells| == |u.cells| && t.columns == u.columns && |t.cells| * |t.columns| > 0
    requires NumberCount(u.cells) == NumberCount(t.cells) + 1
    ensures Density(t) < Density(u)
  {
    DivStep(NumberCount(t.cells) as real, (|t.cells| * |t.columns|) as real);
  }

  /**
   * A table that qualifies still qualifies when a cell below the first
   * three rows that was not a nonzero number becomes one.
   */
  lemma {:induction false} MoreNumbersKeepQuality(t: CleanTable, j: nat, i: nat, x: real, render: real -> string)
    requires 3 <= j < |t.cells| && i < |t.cells[j]|
    requires !IsNonzeroNumber(t.cells[j][i]) && x != 0.0
    requires IsHighQuality(t, render)
    ensures IsHighQuality(CleanTable(t.columns, t.cells[j := t.cells[j][i := Num(x)]]), render)
  {
    var row := t.cells[j][i := Num(x)];
    var u := CleanTable(t.columns, t.cells[j := row]);
    RowNumbersUpdate(t.cells[j], i, Num(x));
    NumberCountUpdate(t.cells, j, row);
    ContextIgnoresLaterRows(t, j, row, render);
    DensityGrows(t, u);
    QualityMonotone(t, u, render);
  }

  /** With the context and shape fixed, a denser table qualifies whenever a sparser one does. */
  lemma {:induction false} QualityMonotone(t: CleanTable, u: CleanTable, render: real -> string)
    requires |t.cells| == |u.cells| && |t.columns| == |u.columns|
    requires Context(t, render) == Context(u, render)
    requires Density(t) <= Density(u)
    requires IsHighQuality(t, render)
    ensures IsHighQuality(u, render)
  {
  }

  // ---------------------------------------------------------------------
  // process_file
  // ---------------------------------------------------------------------

  /** One item of a decomposed document: its `type`, `id` and `content`. */
  datatype Fragment = Fragment(kind: string, id: string, content: string)

  /** The cleaned table a fragment yields, when it is a table that parses and qualifies. */
  function Canonical(f: Fragment, render: real -> string): (t: Option<CleanTable>)
    ensures t.Some? ==> f.kind == "table" && MarkdownTable(f.content).Some? && IsHighQuality(t.value, render)
    ensures t.Some? ==> t.value == CleanParsed(MarkdownTable(f.content).value)
    ensures f.kind == "table" && MarkdownTable(f.content).Some? && IsHighQuality(CleanParsed(MarkdownTable(f.content).value), render)
      ==> t == Some(CleanParsed(MarkdownTable(f.content).value))
  {
    if f.kind != "table" then None
    else match MarkdownTable(f.content)
      case None => None
      case Some(p) =>
        var c := CleanParsed(p);
        if IsHighQuality(c, render) then Some(c) else None
  }

  /** The (id, table) pairs written, in document order. */
  function Qualified(items: seq<Fragment>, render: real -> string): (w: seq<(string, CleanTable)>)
    ensures |w| <= |items|
  {
    if |items| == 0 then []
    else
      var f := items[|items| - 1];
      Qualified(items[..|items| - 1], render)
        + (match Canonical(f, render) case Some(c) => [(f.id, c)] case None => [])
  }

  /** Every table written qualifies. */
  lemma {:induction false} QualifiedTablesQualify(items: seq<Fragment>, render: real -> string)
    ensures forall k :: 0 <= k < |Qualified(items, render)| ==> IsHighQuality(Qualified(items, render)[k].1, render)
  {
    if |items| > 0 {
      var init := items[..|items| - 1];
      QualifiedTablesQualify(init, render);
      var w := Qualified(items, render);
      forall k | 0 <= k < |w| ensures IsHighQuality(w[k].1, render) {
        if k < |Qualified(init, render)| {
          assert w[k] == Qualified(init, render)[k];
        }
      }
    }
  }

  /** The number of fragments whose type is `table`. */
  function TableCount(items: seq<Fragment>): nat
  {
    if |items| == 0 then 0
    else TableCount(items[..|items| - 1]) + (if items[|items| - 1].kind == "table" then 1 else 0)
  }

  /** The output directory after writing `w` in order: `<id>.csv` holds the last table with that id. */
  function Saved(dir: map<string, CleanTable>, w: seq<(string, CleanTable)>): map<string, CleanTable>
  {
    if |w| == 0 then dir
    else Saved(dir, w[..|w| - 1])[w[|w| - 1].0 + ".csv" := w[|w| - 1].1]
  }

  /** At most one table is written per table fragment. */
  lemma {:induction false} QualifiedAtMostTables(items: seq<Fragment>, render: real -> string)
    ensures |Qualified(items, render)| <= TableCount(items)
  {
    if |items| > 0 {
      QualifiedAtMostTables(items[..|items| - 1], render);
    }
  }

  /** The files written are the files before plus one `<id>.csv` per written table. */
  lemma {:induction false} SavedNames(dir: map<string, CleanTable>, w: seq<(string, CleanTable)>)
    ensures dir.Keys <= Saved(dir, w).Keys
    ensures forall k :: 0 <= k < |w| ==> w[k].0 + ".csv" in Saved(dir, w)
    ensures forall name :: name in Saved(dir, w) ==> name in dir || exists k :: 0 <= k < |w| && name == w[k].0 + ".csv"
  {
    if |w| > 0 {
      var init := w[..|w| - 1];
      SavedNames(dir, init);
      forall k | 0 <= k < |w| ensures w[k].0 + ".csv" in Saved(dir, w) {
        if k < |init| {
          assert w[k] == init[k];
        }
      }
      forall name | name in Saved(dir, w) && name !in dir
        ensures exists k :: 0 <= k < |w| && name == w[k].0 + ".csv"
      {
        if name != w[|w| - 1].0 + ".csv" {
          var k :| 0 <= k < |init| && name == init[k].0 + ".csv";
          assert w[k] == init[k];
        }
      }
    }
  }

  /** Every file in the directory afterwards was there before or holds a qualifying table. */
  lemma {:induction false} SavedFilesQualify(dir: map<string, CleanTable>, w: seq<(string, CleanTable)>, render: real -> string)
    requires forall k :: 0 <= k < |w| ==> IsHighQuality(w[k].1, render)
    ensures forall name :: name in Saved(dir, w) ==> name in dir || IsHighQuality(Saved(dir, w)[name], render)
  {
    if |w| > 0 {
      var init := w[..|w| - 1];
      assert forall k :: 0 <= k < |init| ==> init[k] == w[k];
      SavedFilesQualify(dir, init, render);
    }
  }

  /** One more fragment adds its table exactly when it has a qualifying one. */
  lemma {:induction false} QualifiedStep(items: seq<Fragment>, n: nat, render: real -> string)
    requires n < |items|
    ensures Qualified(items[..n + 1], render) == Qualified(items[..n], render)
      + (match Canonical(items[n], render) case Some(c) => [(items[n].id, c)] case None => [])
  {
    assert items[..n + 1][..n] == items[..n];
  }

  /** Writing one more table stores it under its id. */
  lemma {:induction false} SavedStep(dir: map<string, CleanTable>, w: seq<(string, CleanTable)>, x: (string, CleanTable))
    ensures Saved(dir, w + [x]) == Saved(dir, w)[x.0 + ".csv" := x.1]
  {
    assert (w + [x])[..|w|] == w;
  }

  /** One more item: the count and the directory change exactly when it yields a qualifying table. */
  lemma {:induction false} ProcessStep(dir: map<string, CleanTable>, items: seq<Fragment>, n: nat, render: real -> string)
    requires n < |items|
    ensures Canonical(items[n], render).None? ==>
      Qualified(items[..n + 1], render) == Qualified(items[..n], render)
    ensures Canonical(items[n], render).Some? ==>
      |Qualified(items[..n + 1], render)| == |Qualified(items[..n], render)| + 1 &&
      Saved(dir, Qualified(items[..n + 1], render))
        == Saved(dir, Qualified(items[..n], render))[items[n].id + ".csv" := Canonical(items[n], render).value]
  {
    QualifiedStep(items, n, render);
    match Canonical(items[n], render)
    case None =>
    case Some(c) =>
      SavedStep(dir, Qualified(items[..n], render), (items[n].id, c));
  }

  /** The body of the `process_file` loop for one item: parse, clean and qualify a table. */
  method CanonicalizeFragment(item: Fragment, render: real -> string) returns (t: Option<CleanTable>)
    ensures t == Canonical(item, render)
  {
    t := None;
    if item.kind == "table" {
      var p := ParseMarkdownTable(item.content);
      if p.Some? {
        var c := CleanParsed(p.value);
        if IsHighQuality(c, render) {
          t := Some(c);
        }
      }
    }
  }

  /**
   * `process_file`: `None` stands for a missing or unreadable JSON file.
   * Returns the number of tables written and the output directory after.
   */
  method ProcessFile(doc: Option<seq<Fragment>>, dir: map<string, CleanTable>, render: real -> string)
    returns (count: nat, saved: map<string, CleanTable>)
    ensures doc.None? ==> count == 0 && saved == dir
    ensures doc.Some? ==> count == |Qualified(doc.value, render)| && saved == Saved(dir, Qualified(doc.value, render))
  {
    count, saved := 0, dir;
    if doc.None? {
      return;
    }
    var items := doc.value;
    for n := 0 to |items|
      invariant count == |Qualified(items[..n], render)|
      invariant saved == Saved(dir, Qualified(items[..n], render))
    {
      ProcessStep(dir, items, n, render);
      var t := CanonicalizeFragment(items[n], render);
      if t.Some? {
        saved := saved[items[n].id + ".csv" := t.value];
        count := count + 1;
      }
    }
    assert items[..|items|] == items;
  }
}
