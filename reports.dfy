/**
 * Report rows as the income-statement and balance-sheet endpoints deliver
 * them, the depth/zero filter, the CSV and padded renderers, and the
 * filter-then-render pipeline of `report-income` and `report-balances`.
 */
module Reports {
  import opened JsText

  /**
   * One row of a report. `value` is the row's decimal amount (the `d` part
   * of the wire value); `style` is "header", "summary" or "data", kept as
   * the string the source compares.
   */
  datatype ReportRow = ReportRow(caption: string, value: real, style: string, depth: nat)

  /** The command-line options the renderer reads. */
  datatype ReportArgs = ReportArgs(maxDepth: int, format: string)

  /**
   * The library formatting the source calls and this model does not
   * interpret: `formatCurrency(amount)` and the template-literal text of an
   * amount.
   */
  datatype Formatters = Formatters(currency: real -> string, amountText: real -> string)

  const DataStyle: string := "data"
  const CsvFormat: string := "csv"

  predicate IsData(r: ReportRow) { r.style == DataStyle }

  // ---------------------------------------------------------------- filter

  /** The row filter: header and summary rows always pass; a data row passes when shallow enough and non-zero. */
  function AcceptReportRow(r: ReportRow, args: ReportArgs): (ok: bool)
    ensures !IsData(r) ==> ok
    ensures IsData(r) ==> (ok <==> r.depth <= args.maxDepth && r.value != 0.0)
  {
    if IsData(r) then r.depth <= args.maxDepth && r.value != 0.0 else true
  }

  /** `rows.filter(r => acceptReportRow(r, args))`. */
  function FilterRows(rows: seq<ReportRow>, args: ReportArgs): (kept: seq<ReportRow>)
    ensures |kept| <= |rows|
    ensures forall i :: 0 <= i < |kept| ==> kept[i] in rows && AcceptReportRow(kept[i], args)
  {
    if rows == [] then []
    else
      var rest := FilterRows(rows[1..], args);
      assert forall x :: x in rest ==> x in rows;
      if AcceptReportRow(rows[0], args) then [rows[0]] + rest else rest
  }

  /** Filtering a concatenation filters each part, in order: the filter never reorders rows. */
  lemma {:induction false} FilterRowsAppend(a: seq<ReportRow>, b: seq<ReportRow>, args: ReportArgs)
    ensures FilterRows(a + b, args) == FilterRows(a, args) + FilterRows(b, args)
  {
    if a == [] {
      assert a + b == b;
    } else {
      assert (a + b)[0] == a[0];
      assert (a + b)[1..] == a[1..] + b;
      FilterRowsAppend(a[1..], b, args);
      var ra, rb := FilterRows(a[1..], args), FilterRows(b, args);
      if AcceptReportRow(a[0], args) {
        assert [a[0]] + (ra + rb) == ([a[0]] + ra) + rb;
      }
    }
  }

  /** A row survives the filter exactly when it occurs in the input and is accepted. */
  lemma {:induction false} FilterRowsMembership(rows: seq<ReportRow>, args: ReportArgs, x: ReportRow)
    ensures x in FilterRows(rows, args) <==> x in rows && AcceptReportRow(x, args)
  {
    if rows != [] {
      FilterRowsMembership(rows[1..], args, x);
      assert x in rows <==> x == rows[0] || x in rows[1..];
    }
  }

  /** Every header and summary row of the input reaches the output, whatever the depth limit. */
  lemma {:induction false} FilterRowsKeepsStructure(rows: seq<ReportRow>, args: ReportArgs)
    ensures |FilterRows(rows, args)| >= |NonDataRows(rows)|
    ensures NonDataRows(FilterRows(rows, args)) == NonDataRows(rows)
  {
    if rows != [] {
      FilterRowsKeepsStructure(rows[1..], args);
      var rest := FilterRows(rows[1..], args);
      if AcceptReportRow(rows[0], args) {
        assert ([rows[0]] + rest)[1..] == rest;
      }
    }
  }

  /** The header and summary rows of a report, in order. */
  function NonDataRows(rows: seq<ReportRow>): (s: seq<ReportRow>)
    ensures |s| <= |rows|
  {
    if rows == [] then []
    else if IsData(rows[0]) then NonDataRows(rows[1..])
    else [rows[0]] + NonDataRows(rows[1..])
  }

  // -------------------------------------------------------------- padded

  /** The three widths the padded renderer chooses for a row. */
  datatype Columns = Columns(lpad: nat, captionWidth: int, beforeWidth: int)

  /** The column where the padded renderer puts the decimal point of a row's amount. */
  function DecimalColumn(r: ReportRow): int
  {
    if IsData(r) then 74 - 2 * r.depth else 76
  }

  /**
   * The widths of `renderPaddedReportRow`. Data rows are indented two
   * columns per level; both the caption and the integer-part columns shrink
   * by the same amount, so the decimal point moves two columns left per level.
   */
  function PaddedColumns(r: ReportRow): (c: Columns)
    ensures c.lpad == if IsData(r) then 2 * (r.depth + 1) else 0
    ensures c.lpad + c.captionWidth + c.beforeWidth == DecimalColumn(r)
    ensures IsData(r) ==> c.captionWidth == 54 - 2 * r.depth
    ensures !IsData(r) ==> c.captionWidth == 54
  {
    if IsData(r) then
      Columns((r.depth + 1) * 2, 54 - r.depth * 2, 18 - r.depth * 2)
    else
      Columns(0, 54, 22)
  }

  /**
   * A currency string split at its last '.': the integer part and the rest.
   * Without a '.', `lastIndexOf` gives -1 and the clamped substrings make
   * the integer part empty and the rest the whole string.
   */
  function SplitAtDecimal(s: string): (parts: (string, string))
    ensures parts.0 + parts.1 == s
    ensures '.' in s ==> |parts.1| > 0 && parts.1[0] == '.' && '.' !in parts.1[1..]
    ensures '.' !in s ==> parts.0 == [] && parts.1 == s
  {
    var decimalIndex := LastIndexOf(s, '.');
    var before := Substring(s, 0, decimalIndex);
    var after := Substring(s, decimalIndex, |s|);
    if decimalIndex < 0 then
      (before, after)
    else
      assert s[..decimalIndex] + s[decimalIndex..] == s;
      NoneAfter(s, decimalIndex, '.');
      (before, after)
  }

  /**
   * The line `renderPaddedReportRow` logs: indentation, the caption padded
   * to its column, the integer part of the currency right-justified in its
   * column, then the decimal point and what follows it.
   */
  function PaddedLine(r: ReportRow, f: Formatters): (line: string)
    ensures var c, parts := PaddedColumns(r), SplitAtDecimal(f.currency(r.value));
      |line| == c.lpad + Max(|r.caption|, c.captionWidth) + Max(|parts.0|, c.beforeWidth) + |parts.1|
    // indentation, the caption, spaces only, then the whole currency string
    ensures var c, cur := PaddedColumns(r), f.currency(r.value);
      |line| >= c.lpad + |r.caption| + |cur|
      && line == Spaces(c.lpad) + r.caption + Spaces(|line| - c.lpad - |r.caption| - |cur|) + cur
  {
    var c := PaddedColumns(r);
    var parts := SplitAtDecimal(f.currency(r.value));
    var line := Spaces(c.lpad) + PadEnd(r.caption, c.captionWidth) + (PadStart(parts.0, c.beforeWidth) + parts.1);
    PaddedLayout(c.lpad, r.caption, c.captionWidth, parts.0, c.beforeWidth, parts.1, f.currency(r.value));
    line
  }

  /**
   * Padding the caption on the right and the integer part on the left
   * leaves a single run of spaces between the caption and the currency.
   */
  lemma PaddedLayout(lpad: nat, caption: string, captionWidth: int, intPart: string, beforeWidth: int, rest: string,
                     cur: string)
    requires intPart + rest == cur
    ensures var line := Spaces(lpad) + PadEnd(caption, captionWidth) + (PadStart(intPart, beforeWidth) + rest);
      |line| == lpad + Max(|caption|, captionWidth) + Max(|intPart|, beforeWidth) + |rest|
      && |line| >= lpad + |caption| + |cur|
      && line == Spaces(lpad) + caption + Spaces(|line| - lpad - |caption| - |cur|) + cur
  {
    var k1 := if captionWidth <= |caption| then 0 else captionWidth - |caption|;
    var k2 := if beforeWidth <= |intPart| then 0 else beforeWidth - |intPart|;
    assert PadEnd(caption, captionWidth) == caption + Spaces(k1);
    assert PadStart(intPart, beforeWidth) == Spaces(k2) + intPart;
    SpaceFill(lpad, caption, k1, k2, intPart, rest);
  }

  /** The two paddings of a padded line meet as one run of spaces. */
  lemma SpaceFill(indent: nat, caption: string, k1: nat, k2: nat, intPart: string, rest: string)
    ensures Spaces(indent) + (caption + Spaces(k1)) + (Spaces(k2) + intPart + rest)
      == Spaces(indent) + caption + Spaces(k1 + k2) + (intPart + rest)
  {
    assert Spaces(k1) + Spaces(k2) == Spaces(k1 + k2);
    var a, b, c := Spaces(indent), Spaces(k1), Spaces(k2);
    calc {
      a + (caption + b) + (c + intPart + rest);
      { ConcatAssociative(a, caption, b); }
      (a + caption + b) + (c + intPart + rest);
      { ConcatAssociative(c, intPart, rest); }
      (a + caption + b) + (c + (intPart + rest));
      { ConcatAssociative(a + caption + b, c, intPart + rest); }
      (a + caption + b + c) + (intPart + rest);
      { ConcatAssociative(a + caption, b, c); }
      a + caption + (b + c) + (intPart + rest);
    }
  }

  /** A padded line starts with its indentation followed by the whole caption: padding never truncates. */
  lemma PaddedLineCaption(r: ReportRow, f: Formatters)
    ensures var line, c := PaddedLine(r, f), PaddedColumns(r);
      && |line| >= c.lpad + |r.caption|
      && line[..c.lpad] == Spaces(c.lpad)
      && line[c.lpad..c.lpad + |r.caption|] == r.caption
  {
    var c, parts := PaddedColumns(r), SplitAtDecimal(f.currency(r.value));
    var indent, captionPadded, tail := Spaces(c.lpad), PadEnd(r.caption, c.captionWidth), PadStart(parts.0, c.beforeWidth) + parts.1;
    ConcatPrefix(indent, captionPadded, tail, |r.caption|);
  }

  /** A padded line ends with the complete currency string. */
  lemma PaddedLineCurrency(r: ReportRow, f: Formatters)
    ensures var line, cur := PaddedLine(r, f), f.currency(r.value);
      |line| >= |cur| && line[|line| - |cur|..] == cur
  {
    var c, parts := PaddedColumns(r), SplitAtDecimal(f.currency(r.value));
    var head, paddedBefore := Spaces(c.lpad) + PadEnd(r.caption, c.captionWidth), PadStart(parts.0, c.beforeWidth);
    assert PaddedLine(r, f) == head + (paddedBefore + parts.1);
    ConcatSuffix(head, paddedBefore, parts.0, parts.1);
  }

  /**
   * When the caption and the integer part of the currency fit their
   * columns, the decimal point of a currency that has one sits at the row's
   * decimal column.
   */
  lemma PaddedLineDecimalPoint(r: ReportRow, f: Formatters)
    requires '.' in f.currency(r.value)
    requires |r.caption| <= PaddedColumns(r).captionWidth
    requires |SplitAtDecimal(f.currency(r.value)).0| <= PaddedColumns(r).beforeWidth
    ensures DecimalColumn(r) < |PaddedLine(r, f)| && PaddedLine(r, f)[DecimalColumn(r)] == '.'
  {
    var c, parts := PaddedColumns(r), SplitAtDecimal(f.currency(r.value));
    var head, paddedBefore := Spaces(c.lpad) + PadEnd(r.caption, c.captionWidth), PadStart(parts.0, c.beforeWidth);
    assert |head| + |paddedBefore| == DecimalColumn(r);
    ConcatAt(head, paddedBefore, parts.1);
  }

  lemma ConcatPrefix(a: string, b: string, c: string, n: nat)
    requires n <= |b|
    ensures (a + b + c)[..|a|] == a && (a + b + c)[|a|..|a| + n] == b[..n]
  {
  }

  lemma ConcatSuffix(a: string, b: string, x: string, y: string)
    requires |b| >= |x| && b[|b| - |x|..] == x
    ensures var s := a + (b + y); |s| >= |x + y| && s[|s| - |x + y|..] == x + y
  {
    var s := a + (b + y);
    assert s[|s| - |x + y|..] == b[|b| - |x|..] + y;
  }

  lemma ConcatAt(a: string, b: string, c: string)
    requires |c| > 0
    ensures |a + (b + c)| > |a| + |b| && (a + (b + c))[|a| + |b|] == c[0]
  {
  }

  // ----------------------------------------------------------------- csv

  /** The line `renderCsvReportRow` logs: caption, a comma, the amount; nothing is escaped. */
  function CsvLine(r: ReportRow, f: Formatters): (line: string)
    ensures |line| == |r.caption| + 1 + |f.amountText(r.value)|
    ensures ',' !in r.caption ==> SplitAtFirstComma(line) == (r.caption, f.amountText(r.value))
  {
    var line := r.caption + "," + f.amountText(r.value);
    if ',' in r.caption then line
    else
      SplitAtFirstCommaOf(r.caption, f.amountText(r.value));
      line
  }

  /** A reader of CSV lines: the text before the first comma and the text after it. */
  function SplitAtFirstComma(line: string): (parts: (string, string))
    ensures ',' !in parts.0
    ensures ',' in line ==> parts.0 + "," + parts.1 == line
    ensures ',' !in line ==> parts == (line, "")
  {
    if line == [] then ([], [])
    else if line[0] == ',' then ([], line[1..])
    else
      var rest := SplitAtFirstComma(line[1..]);
      assert ',' in line ==> ',' in line[1..];
      assert ',' !in line ==> ',' !in line[1..];
      assert [line[0]] + line[1..] == line;
      ([line[0]] + rest.0, rest.1)
  }

  /** Reading back a comma-joined pair recovers it when the first part has no comma. */
  lemma {:induction false} SplitAtFirstCommaOf(a: string, b: string)
    requires ',' !in a
    ensures SplitAtFirstComma(a + "," + b) == (a, b)
  {
    if a != [] {
      assert (a + "," + b)[1..] == a[1..] + "," + b;
      SplitAtFirstCommaOf(a[1..], b);
      assert [a[0]] + a[1..] == a;
    }
  }

  /**
   * For a caption without a comma the line is exactly the caption, one comma
   * and the amount text: the read-back and the length leave no other line.
   */
  lemma CsvLineLayout(r: ReportRow, f: Formatters)
    requires ',' !in r.caption
    ensures CsvLine(r, f) == r.caption + "," + f.amountText(r.value)
  {
    var line := CsvLine(r, f);
    var parts := SplitAtFirstComma(line);
    assert line[|r.caption|] == ',';
    assert parts.0 + "," + parts.1 == line;
  }

  /**
   * The CSV renderer does not escape commas: a row whose caption holds a
   * comma is read back with the caption cut at its first comma, and the
   * rest of the caption moves into the amount field.
   */
  lemma CsvCaptionWithComma(a: string, b: string, r: ReportRow, f: Formatters)
    requires ',' !in a && r.caption == a + "," + b
    ensures SplitAtFirstComma(CsvLine(r, f)) == (a, b + "," + f.amountText(r.value))
  {
    var amount := f.amountText(r.value);
    calc {
      CsvLine(r, f);
      (a + "," + b) + "," + amount;
      { ConcatAssociative(a + "," + b, ",", amount); }
      (a + "," + b) + ("," + amount);
      { ConcatAssociative(a + ",", b, "," + amount); }
      (a + ",") + (b + ("," + amount));
      { ConcatAssociative(b, ",", amount); }
      (a + ",") + (b + "," + amount);
    }
    SplitAtFirstCommaOf(a, b + "," + amount);
  }

  // ------------------------------------------------------------ dispatch

  /** `renderReportRow`: "csv" selects the CSV layout, every other format the padded one. */
  function RenderReportRow(r: ReportRow, args: ReportArgs, f: Formatters): (line: string)
    ensures args.format == CsvFormat ==> line == CsvLine(r, f)
    ensures args.format != CsvFormat ==> line == PaddedLine(r, f)
  {
    if args.format == CsvFormat then CsvLine(r, f) else PaddedLine(r, f)
  }

  /** The lines logged for a sequence of rows, one per row, in order. */
  function RenderRows(rows: seq<ReportRow>, args: ReportArgs, f: Formatters): (lines: seq<string>)
    ensures |lines| == |rows|
    ensures forall i :: 0 <= i < |rows| ==> lines[i] == RenderReportRow(rows[i], args, f)
  {
    if rows == [] then [] else [RenderReportRow(rows[0], args, f)] + RenderRows(rows[1..], args, f)
  }

  /** Rendering a concatenation renders each part, in order. */
  lemma {:induction false} RenderRowsAppend(a: seq<ReportRow>, b: seq<ReportRow>, args: ReportArgs, f: Formatters)
    ensures RenderRows(a + b, args, f) == RenderRows(a, args, f) + RenderRows(b, args, f)
  {
    if a == [] {
      assert a + b == b;
    } else {
      assert (a + b)[1..] == a[1..] + b;
      RenderRowsAppend(a[1..], b, args, f);
    }
  }

  // ------------------------------------------------------------ pipeline

  /** `report.filter(accept)`: the accepted rows, in order. */
  method AcceptedRows(report: seq<ReportRow>, args: ReportArgs) returns (accepted: seq<ReportRow>)
    ensures accepted == FilterRows(report, args)
  {
    accepted := [];
    var i := 0;
    while i < |report|
      invariant 0 <= i <= |report|
      invariant accepted == FilterRows(report[..i], args)
    {
      FilterRowsSnoc(report, i, args);
      if AcceptReportRow(report[i], args) {
        accepted := accepted + [report[i]];
      }
      i := i + 1;
    }
    assert report[..i] == report;
  }

  lemma FilterRowsSnoc(report: seq<ReportRow>, i: nat, args: ReportArgs)
    requires i < |report|
    ensures FilterRows(report[..i + 1], args)
      == FilterRows(report[..i], args) + (if AcceptReportRow(report[i], args) then [report[i]] else [])
  {
    assert report[..i + 1] == report[..i] + [report[i]];
    FilterRowsAppend(report[..i], [report[i]], args);
  }

  /** `rows.forEach(render)`: one rendered line per row, in order. */
  method RenderedLines(rows: seq<ReportRow>, args: ReportArgs, f: Formatters) returns (lines: seq<string>)
    ensures lines == RenderRows(rows, args, f)
  {
    lines := [];
    var j := 0;
    while j < |rows|
      invariant 0 <= j <= |rows|
      invariant lines == RenderRows(rows[..j], args, f)
    {
      RenderRowsSnoc(rows, j, args, f);
      lines := lines + [RenderReportRow(rows[j], args, f)];
      j := j + 1;
    }
    assert rows[..j] == rows;
  }

  lemma RenderRowsSnoc(rows: seq<ReportRow>, j: nat, args: ReportArgs, f: Formatters)
    requires j < |rows|
    ensures RenderRows(rows[..j + 1], args, f) == RenderRows(rows[..j], args, f) + [RenderReportRow(rows[j], args, f)]
  {
    assert rows[..j + 1] == rows[..j] + [rows[j]];
    RenderRowsAppend(rows[..j], [rows[j]], args, f);
  }

  /**
   * `report.filter(accept).forEach(render)`: the lines written to the
   * console for a fetched report, first filtering, then rendering each
   * accepted row.
   */
  method ReportLines(report: seq<ReportRow>, args: ReportArgs, f: Formatters) returns (lines: seq<string>)
    ensures lines == RenderRows(FilterRows(report, args), args, f)
  {
    var accepted := AcceptedRows(report, args);
    lines := RenderedLines(accepted, args, f);
  }

  /** The report output has one line per accepted row, each the rendering of that row, in input order. */
  lemma ReportOutputShape(report: seq<ReportRow>, args: ReportArgs, f: Formatters, i: nat)
    requires i < |FilterRows(report, args)|
    ensures |RenderRows(FilterRows(report, args), args, f)| == |FilterRows(report, args)|
    ensures var kept := FilterRows(report, args);
      RenderRows(kept, args, f)[i] == RenderReportRow(kept[i], args, f)
      && kept[i] in report && AcceptReportRow(kept[i], args)
  {
  }

  // ------------------------------------------------- the filter as written

  /**
   * The filter exactly as written: for a data row it compares the wire
   * value, an object whose amount is in its `d` member, with `0.0`. A plain
   * object never loosely equals a number, so that comparison is always true.
   */
  function AcceptReportRowAsWritten(r: ReportRow, args: ReportArgs): (ok: bool)
    ensures !IsData(r) ==> ok
    ensures IsData(r) ==> (ok <==> r.depth <= args.maxDepth)
  {
    var wireValueIsNotZero := true;
    if IsData(r) then r.depth <= args.maxDepth && wireValueIsNotZero else true
  }

  /** A zero-valued data row within the depth limit gets through the filter as written, but not the intended one. */
  lemma ZeroRowPassesFilterAsWritten()
    ensures var gift, args := ReportRow("Gift", 0.0, DataStyle, 0), ReportArgs(0, "padded");
      AcceptReportRowAsWritten(gift, args) && !AcceptReportRow(gift, args)
  {
  }
}
