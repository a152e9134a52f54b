/**
 Table layouts: columns, else records, else plain rows, the first within the
 limits. Lengths are in characters, as displayed.
 */
module Tables {
  import opened Basics
  import opened Wrappers
  import opened Texts

  const TEXT_MAX_CHARS: nat := 4096

  /** What is written between cells, in the rule under a header, between lines,
      between records, after a label, and as a rule of plain rows. */
  datatype Style = Style(cell: string, rule: string, line: string, record: string, colon: string, under: string)

  const STYLE := Style(" | ", "-|-", "\n", "\n\n", ": ", "\U{2014}\U{2014}\U{2014}")

  /** The lengths the layouts count with. */
  predicate StyleOk(y: Style) { |y.cell| == 3 && |y.rule| == 3 && |y.line| == 1 && |y.colon| == 2 }

  /** Rows of cells, the header first if there is one. */
  datatype Table = Table(rows: seq<seq<string>>, header: bool)

  /** The first `n` parts, `sep` between them. */
  function JoinFirst(parts: seq<string>, n: nat, sep: string): string
    requires n <= |parts|
  {
    if n == 0 then "" else if n == 1 then parts[0] else JoinFirst(parts, n - 1, sep) + sep + parts[n - 1]
  }

  function Join(parts: seq<string>, sep: string): string { JoinFirst(parts, |parts|, sep) }

  // ─── Plain rows ─────────────────────────────────────────────────────────

  /** How many of a row's first `n` cells there are up to the last not empty. */
  function Length(row: seq<string>, n: nat): (k: nat)
    requires n <= |row|
    ensures k <= n
  {
    if n == 0 then 0 else if row[n - 1] == "" then Length(row, n - 1) else n
  }

  function RowText(y: Style, row: seq<string>): string { JoinFirst(row, Length(row, |row|), y.cell) }

  /** The lines of the first rows, a rule under the header. */
  function RowLines(y: Style, t: Table, n: nat): seq<string>
    requires n <= |t.rows|
  {
    if n == 0 then [] else
      RowLines(y, t, n - 1) + [RowText(y, t.rows[n - 1])] + if n == 1 && t.header then [y.under] else []
  }

  function PlainRows(y: Style, t: Table): string { Join(RowLines(y, t, |t.rows|), y.line) }

  method UnpaddedRows(y: Style, t: Table) returns (text: string)
    ensures text == PlainRows(y, t)
  {
    var lines, r := [], 0;
    while r < |t.rows|
      invariant 0 <= r <= |t.rows| && lines == RowLines(y, t, r)
    {
      lines := lines + [RowText(y, t.rows[r])];
      if r == 0 && t.header {
        lines := lines + [y.under];
      }
      r := r + 1;
    }
    text := Join(lines, y.line);
  }

  // ─── Records ────────────────────────────────────────────────────────────

  function Labels(t: Table): seq<string> { if t.header && t.rows != [] then t.rows[0] else [] }

  /** The first row that is not the header. */
  function BodyFrom(t: Table): nat { if t.header && t.rows != [] then 1 else 0 }

  /** What goes before a value: its header's label, if that is not empty. */
  function Head(y: Style, name: string): string { if name == "" then "" else name + y.colon }

  /** The heads of the first `n` columns. */
  function Heads(y: Style, labels: seq<string>, n: nat): (heads: seq<string>)
    requires n <= |labels|
    ensures |heads| == n
  {
    if n == 0 then [] else Heads(y, labels, n - 1) + [Head(y, labels[n - 1])]
  }

  lemma {:induction false} HeadAt(y: Style, labels: seq<string>, n: nat, i: nat)
    requires i < n <= |labels|
    ensures Heads(y, labels, n)[i] == Head(y, labels[i])
  {
    if i < n - 1 {
      HeadAt(y, labels, n - 1, i);
    }
  }

  function Cell(row: seq<string>, i: nat): string { if i < |row| then row[i] else "" }

  /** What goes before an entry: a blank line between rows, a break within one. */
  function Before(y: Style, out: string, first: bool): string {
    if out == "" then "" else if first then y.record else y.line
  }

  /** `text` with one more entry. */
  function WithEntry(y: Style, heads: seq<string>, i: nat, value: string, text: string, first: bool): string {
    text + Before(y, text, first) + (Cell(heads, i) + value)
  }

  /** Whether the first `n` cells are all empty. */
  predicate NoneYet(row: seq<string>, n: nat)
    requires n <= |row|
  {
    n == 0 || (row[n - 1] == "" && NoneYet(row, n - 1))
  }

  /** The records once the first `n` cells of `row` follow `out`. */
  function RowRecords(y: Style, heads: seq<string>, row: seq<string>, n: nat, out: string): string
    requires n <= |row|
  {
    if n == 0 then out else
      var before := RowRecords(y, heads, row, n - 1, out);
      if row[n - 1] == "" then before else WithEntry(y, heads, n - 1, row[n - 1], before, NoneYet(row, n - 1))
  }

  /** The records of the rows from `from` to before `n`. */
  function RecordsUpTo(y: Style, heads: seq<string>, rows: seq<seq<string>>, from: nat, n: nat): string
    requires from <= n <= |rows|
    decreases n
  {
    if n == from then "" else RowRecords(y, heads, rows[n - 1], |rows[n - 1]|, RecordsUpTo(y, heads, rows, from, n - 1))
  }

  function HeadsOf(y: Style, t: Table): seq<string> { Heads(y, Labels(t), |Labels(t)|) }

  /** The records layout. */
  function AllRecords(y: Style, t: Table): string { RecordsUpTo(y, HeadsOf(y, t), t.rows, BodyFrom(t), |t.rows|) }

  lemma EntryAdds(y: Style, heads: seq<string>, i: nat, value: string, text: string, first: bool)
    ensures |text| <= |WithEntry(y, heads, i, value, text, first)|
  {
  }

  lemma {:induction false} RowGrows(y: Style, heads: seq<string>, row: seq<string>, n: nat, m: nat, out: string)
    requires n <= m <= |row|
    ensures |RowRecords(y, heads, row, n, out)| <= |RowRecords(y, heads, row, m, out)|
    decreases m
  {
    if n < m {
      RowGrows(y, heads, row, n, m - 1, out);
      var before := RowRecords(y, heads, row, m - 1, out);
      EntryAdds(y, heads, m - 1, row[m - 1], before, NoneYet(row, m - 1));
      assert |before| <= |RowRecords(y, heads, row, m, out)|;
    }
  }

  lemma {:induction false} RecordsGrow(y: Style, heads: seq<string>, rows: seq<seq<string>>, from: nat, k: nat, n: nat)
    requires from <= k <= n <= |rows|
    ensures |RecordsUpTo(y, heads, rows, from, k)| <= |RecordsUpTo(y, heads, rows, from, n)|
    decreases n
  {
    if k < n {
      RecordsGrow(y, heads, rows, from, k, n - 1);
      RowGrows(y, heads, rows[n - 1], 0, |rows[n - 1]|, RecordsUpTo(y, heads, rows, from, n - 1));
    }
  }

  /** How long an entry is, as it is counted before it is written. */
  lemma EntryLength(y: Style, labels: seq<string>, i: nat)
    requires StyleOk(y)
    ensures Cell(Heads(y, labels, |labels|), i) == Head(y, Cell(labels, i))
    ensures |Head(y, Cell(labels, i))| == if Cell(labels, i) == "" then 0 else |Cell(labels, i)| + 2
  {
    if i < |labels| {
      HeadAt(y, labels, |labels|, i);
    }
  }

  /** One cell of a row, skipped if empty. Its length is added to the count
      before it is written, so that nothing over the budget is. */
  method AddCell(y: Style, labels: seq<string>, row: seq<string>, i: nat, text: string, length: nat, first: bool, budget: nat,
                 ghost heads: seq<string>, ghost out: string)
    returns (r: Option<string>, counted: nat)
    requires StyleOk(y) && i < |row| && length == |text| <= budget && heads == Heads(y, labels, |labels|)
    requires text == RowRecords(y, heads, row, i, out) && first == NoneYet(row, i)
    ensures var next := RowRecords(y, heads, row, i + 1, out);
            counted == |next| && (r.Some? <==> counted <= budget) && (r.Some? ==> r.value == next)
  {
    var value := row[i];
    if value == "" {
      return Some(text), length;
    }
    var name, sep := Cell(labels, i), Before(y, text, first);
    var nameLength := if name == "" then 0 else |name| + 2;
    EntryLength(y, labels, i);
    counted := length + |sep| + nameLength + |value|;
    r := if counted > budget then None else Some(text + sep + (Head(y, name) + value));
  }

  /** The records of one row after `out`, counted on from there. */
  method AddRow(y: Style, labels: seq<string>, row: seq<string>, out: string, length: nat, budget: nat, ghost heads: seq<string>)
    returns (r: Option<string>, counted: nat)
    requires StyleOk(y) && length == |out| <= budget && heads == Heads(y, labels, |labels|)
    ensures var all := RowRecords(y, heads, row, |row|, out);
            (r.Some? <==> |all| <= budget) && (r.Some? ==> r.value == all && counted == |all|)
  {
    var text, first, i := out, true, 0;
    counted := length;
    while i < |row|
      invariant 0 <= i <= |row| && counted == |text| <= budget
      invariant text == RowRecords(y, heads, row, i, out) && first == NoneYet(row, i)
    {
      var next;
      next, counted := AddCell(y, labels, row, i, text, counted, first, budget, heads, out);
      if next.None? {
        RowGrows(y, heads, row, i + 1, |row|, out);
        return None, counted;
      }
      first := first && row[i] == "";
      text, i := next.value, i + 1;
    }
    r := Some(text);
  }

  /** The records layout, or nothing when it is empty or over the budget. The count
      kept on the way is always the length of what has been written. */
  method Records(y: Style, t: Table, budget: nat) returns (r: Option<string>)
    requires StyleOk(y)
    ensures var all := AllRecords(y, t);
            (r.Some? <==> all != "" && |all| <= budget) && (r.Some? ==> r.value == all)
  {
    var labels, from := Labels(t), BodyFrom(t);
    ghost var heads := HeadsOf(y, t);
    var out, length, k := "", 0, from;
    while k < |t.rows|
      invariant from <= k <= |t.rows| && length == |out| <= budget
      invariant out == RecordsUpTo(y, heads, t.rows, from, k)
    {
      var more;
      more, length := AddRow(y, labels, t.rows[k], out, length, budget, heads);
      if more.None? {
        RecordsGrow(y, heads, t.rows, from, k + 1, |t.rows|);
        return None;
      }
      out, k := more.value, k + 1;
    }
    r := if out != "" then Some(out) else None;
  }

  // ─── Columns ────────────────────────────────────────────────────────────

  /** How many columns the first `n` rows have: the longest row's. */
  function Columns(rows: seq<seq<string>>, n: nat): nat
    requires n <= |rows|
  {
    if n == 0 then 0 else Max(Columns(rows, n - 1), |rows[n - 1]|)
  }

  /** The widest cell of a column in the first `n` rows. */
  function Widest(rows: seq<seq<string>>, n: nat, i: nat): nat
    requires n <= |rows|
  {
    if n == 0 then 0 else Max(Widest(rows, n - 1, i), |Cell(rows[n - 1], i)|)
  }

  lemma {:induction false} CellsFit(rows: seq<seq<string>>, n: nat, r: nat, i: nat)
    requires r < n <= |rows|
    ensures |Cell(rows[r], i)| <= Widest(rows, n, i) && |rows[r]| <= Columns(rows, n)
  {
    if r < n - 1 {
      CellsFit(rows, n - 1, r, i);
    }
  }

  /** The columns' widths: as many as there are columns, each its widest cell's. */
  ghost predicate WidthsOk(rows: seq<seq<string>>, ws: seq<nat>) {
    |ws| == Columns(rows, |rows|) && forall i :: 0 <= i < |ws| ==> ws[i] == Widest(rows, |rows|, i)
  }

  function SumFirst(ws: seq<nat>, n: nat): nat
    requires n <= |ws|
  {
    if n == 0 then 0 else SumFirst(ws, n - 1) + Max(ws[n - 1], 1)
  }

  /** How wide a padded row may be: its columns, at least one character each, and
      the separators. */
  function Width(ws: seq<nat>): nat { SumFirst(ws, |ws|) + 3 * if |ws| == 0 then 0 else |ws| - 1 }

  function Repeat(c: char, n: nat): (s: string)
    ensures |s| == n
  {
    if n == 0 then "" else Repeat(c, n - 1) + [c]
  }

  /** A cell padded to its column. */
  function PadTo(cell: string, width: nat): string { cell + Repeat(' ', if |cell| <= width then width - |cell| else 0) }

  /** A row's first `n` cells, each padded to its column. */
  function Padded(row: seq<string>, ws: seq<nat>, n: nat): (cells: seq<string>)
    requires n <= |ws|
    ensures |cells| == n
  {
    if n == 0 then [] else Padded(row, ws, n - 1) + [PadTo(Cell(row, n - 1), ws[n - 1])]
  }

  function Dashes(ws: seq<nat>, n: nat): (cells: seq<string>)
    requires n <= |ws|
    ensures |cells| == n
  {
    if n == 0 then [] else Dashes(ws, n - 1) + [Repeat('-', Max(ws[n - 1], 1))]
  }

  /** A padded row, without the spaces at its end. */
  function RowLine(y: Style, row: seq<string>, ws: seq<nat>): string { TrimEnd(Join(Padded(row, ws, |ws|), y.cell)) }

  function RuleLine(y: Style, ws: seq<nat>): string { Join(Dashes(ws, |ws|), y.rule) }

  /** The lines of the first rows, a rule under the header. */
  function PaddedLines(y: Style, t: Table, ws: seq<nat>, n: nat): (lines: seq<string>)
    requires n <= |t.rows|
    ensures |lines| == n + if n > 0 && t.header then 1 else 0
  {
    if n == 0 then [] else
      PaddedLines(y, t, ws, n - 1) + [RowLine(y, t.rows[n - 1], ws)] + if n == 1 && t.header then [RuleLine(y, ws)] else []
  }

  /** The columns layout. */
  function ColumnsText(y: Style, t: Table, ws: seq<nat>): string { Join(PaddedLines(y, t, ws, |t.rows|), y.line) }

  /** Each column as wide as its widest cell. */
  method ColumnWidths(rows: seq<seq<string>>) returns (ws: seq<nat>)
    ensures WidthsOk(rows, ws)
  {
    var columns := Columns(rows, |rows|);
    var widths := new nat[columns](_ => 0);
    var r := 0;
    while r < |rows|
      invariant 0 <= r <= |rows|
      invariant forall i :: 0 <= i < columns ==> widths[i] == Widest(rows, r, i)
    {
      CellsFit(rows, |rows|, r, 0);
      Widen(widths, rows, r);
      r := r + 1;
    }
    ws := widths[..];
  }

  /** The widths once one more row is read. */
  method Widen(widths: array<nat>, rows: seq<seq<string>>, r: nat)
    requires r < |rows| && |rows[r]| <= widths.Length
    requires forall i :: 0 <= i < widths.Length ==> widths[i] == Widest(rows, r, i)
    modifies widths
    ensures forall i :: 0 <= i < widths.Length ==> widths[i] == Widest(rows, r + 1, i)
  {
    var row, k := rows[r], 0;
    while k < |row|
      invariant 0 <= k <= |row|
      invariant forall i :: 0 <= i < k ==> widths[i] == Max(Widest(rows, r, i), |row[i]|)
      invariant forall i :: k <= i < widths.Length ==> widths[i] == Widest(rows, r, i)
    {
      widths[k] := Max(widths[k], |row[k]|);
      k := k + 1;
    }
  }

  /** Every cell of a row fits its column. */
  ghost predicate RowFits(row: seq<string>, ws: seq<nat>) { forall i :: 0 <= i < |ws| ==> |Cell(row, i)| <= ws[i] }

  lemma PaddingFits(rows: seq<seq<string>>, ws: seq<nat>, r: nat)
    requires WidthsOk(rows, ws) && r < |rows|
    ensures RowFits(rows[r], ws)
  {
    forall i | 0 <= i < |ws|
      ensures |Cell(rows[r], i)| <= ws[i]
    {
      CellsFit(rows, |rows|, r, i);
    }
  }

  /** A row padded by hand: the padding is never negative. */
  method PadRow(y: Style, row: seq<string>, ws: seq<nat>) returns (s: string)
    requires RowFits(row, ws)
    ensures s == RowLine(y, row, ws)
  {
    var cells: seq<string>, i := [], 0;
    while i < |ws|
      invariant 0 <= i <= |ws| && cells == Padded(row, ws, i)
    {
      var cell := Cell(row, i);
      cells := cells + [cell + Repeat(' ', ws[i] - |cell|)];
      i := i + 1;
    }
    s := TrimEnd(Join(cells, y.cell));
  }

  /** The lines of the columns: padded rows, a rule under the header. */
  method ColumnLines(y: Style, t: Table, ws: seq<nat>) returns (lines: seq<string>)
    requires WidthsOk(t.rows, ws)
    ensures lines == PaddedLines(y, t, ws, |t.rows|)
  {
    lines := [];
    var k := 0;
    while k < |t.rows|
      invariant 0 <= k <= |t.rows| && lines == PaddedLines(y, t, ws, k)
    {
      PaddingFits(t.rows, ws, k);
      var line := PadRow(y, t.rows[k], ws);
      lines := lines + [line];
      if k == 0 && t.header {
        lines := lines + [RuleLine(y, ws)];
      }
      k := k + 1;
    }
  }

  /** How many characters the columns may take, by the count made beforehand. */
  function Area(t: Table, ws: seq<nat>): nat { (|t.rows| + if t.header then 1 else 0) * (Width(ws) + 1) }

  /** Columns padded to their widest cell, when a padded row and the whole are
      within the limits. */
  method PaddedColumns(y: Style, t: Table, maxWidth: nat, budget: nat) returns (r: Option<string>, ws: seq<nat>)
    ensures WidthsOk(t.rows, ws)
    ensures r == if Width(ws) <= maxWidth && Area(t, ws) <= budget then Some(ColumnsText(y, t, ws)) else None
  {
    ws := ColumnWidths(t.rows);
    if Width(ws) > maxWidth || Area(t, ws) > budget {
      return None, ws;
    }
    var lines := ColumnLines(y, t, ws);
    r := Some(Join(lines, y.line));
  }

  // ─── How long a layout can be ───────────────────────────────────────────

  lemma {:induction false} TrimEndShorter(s: string)
    ensures |TrimEnd(s)| <= |s|
  {
    if s != "" && IsWhitespace(s[|s| - 1]) {
      TrimEndShorter(s[..|s| - 1]);
    }
  }

  function Total(parts: seq<string>, n: nat): nat
    requires n <= |parts|
  {
    if n == 0 then 0 else Total(parts, n - 1) + |parts[n - 1]|
  }

  lemma {:induction false} JoinLength(parts: seq<string>, n: nat, sep: string)
    requires n <= |parts|
    ensures |JoinFirst(parts, n, sep)| == Total(parts, n) + |sep| * if n == 0 then 0 else n - 1
  {
    if n > 1 {
      JoinLength(parts, n - 1, sep);
      OneMoreSep(n - 1, |sep|);
    }
  }

  lemma OneMoreSep(n: nat, sep: nat)
    requires n > 0
    ensures sep * (n - 1) + sep == sep * n
  {
  }

  lemma {:induction false} TotalSame(a: seq<string>, b: seq<string>, n: nat)
    requires n <= |a| && n <= |b| && forall i :: 0 <= i < n ==> |a[i]| == |b[i]|
    ensures Total(a, n) == Total(b, n)
  {
    if n > 0 {
      TotalSame(a, b, n - 1);
    }
  }

  lemma {:induction false} PaddedTotal(row: seq<string>, ws: seq<nat>, n: nat)
    requires RowFits(row, ws) && n <= |ws|
    ensures Total(Padded(row, ws, n), n) <= SumFirst(ws, n)
  {
    if n > 0 {
      PaddedTotal(row, ws, n - 1);
      TotalSame(Padded(row, ws, n), Padded(row, ws, n - 1), n - 1);
      assert |PadTo(Cell(row, n - 1), ws[n - 1])| == ws[n - 1];
    }
  }

  lemma {:induction false} DashesTotal(ws: seq<nat>, n: nat)
    requires n <= |ws|
    ensures Total(Dashes(ws, n), n) == SumFirst(ws, n)
  {
    if n > 0 {
      DashesTotal(ws, n - 1);
      TotalSame(Dashes(ws, n), Dashes(ws, n - 1), n - 1);
    }
  }

  /** No padded row is wider than counted. */
  lemma RowWidth(y: Style, row: seq<string>, ws: seq<nat>)
    requires StyleOk(y) && RowFits(row, ws)
    ensures |RowLine(y, row, ws)| <= Width(ws)
  {
    PaddedTotal(row, ws, |ws|);
    JoinLength(Padded(row, ws, |ws|), |ws|, y.cell);
    TrimEndShorter(Join(Padded(row, ws, |ws|), y.cell));
  }

  /** The rule under the header is exactly as wide. */
  lemma RuleWidth(y: Style, ws: seq<nat>)
    requires StyleOk(y)
    ensures |RuleLine(y, ws)| == Width(ws)
  {
    DashesTotal(ws, |ws|);
    JoinLength(Dashes(ws, |ws|), |ws|, y.rule);
  }

  ghost predicate AllWithin(lines: seq<string>, width: nat) { forall k :: 0 <= k < |lines| ==> |lines[k]| <= width }

  lemma LinesMore(lines: seq<string>, line: string, tail: seq<string>, width: nat)
    requires AllWithin(lines, width) && |line| <= width && AllWithin(tail, width)
    ensures AllWithin(lines + [line] + tail, width)
  {
  }

  /** Every line of the columns is within the width. */
  lemma {:induction false} LinesWidth(y: Style, t: Table, ws: seq<nat>, n: nat)
    requires StyleOk(y) && n <= |t.rows| && WidthsOk(t.rows, ws)
    ensures AllWithin(PaddedLines(y, t, ws, n), Width(ws))
  {
    if n > 0 {
      LinesWidth(y, t, ws, n - 1);
      PaddingFits(t.rows, ws, n - 1);
      RowWidth(y, t.rows[n - 1], ws);
      RuleWidth(y, ws);
      LinesMore(PaddedLines(y, t, ws, n - 1), RowLine(y, t.rows[n - 1], ws), if n == 1 && t.header then [RuleLine(y, ws)] else [], Width(ws));
    }
  }

  lemma {:induction false} TotalWithin(lines: seq<string>, n: nat, width: nat)
    requires AllWithin(lines, width) && n <= |lines|
    ensures Total(lines, n) <= n * width
  {
    if n > 0 {
      TotalWithin(lines, n - 1, width);
      OneMoreLine(n - 1, width);
    }
  }

  lemma OneMoreLine(n: nat, width: nat)
    ensures (n + 1) * width == n * width + width
  {
  }

  lemma Product(a: nat, b: nat, width: nat)
    requires a <= b
    ensures a * width + (if a == 0 then 0 else a - 1) <= b * (width + 1)
  {
    assert b * (width + 1) == b * width + b;
    assert (b - a) * width >= 0;
    assert b * width == a * width + (b - a) * width;
  }

  /** Columns never take more than was counted: their lines times the width, and a
      break each. */
  lemma ColumnsLength(y: Style, t: Table, ws: seq<nat>)
    requires StyleOk(y) && WidthsOk(t.rows, ws)
    ensures |ColumnsText(y, t, ws)| <= Area(t, ws)
  {
    var lines := PaddedLines(y, t, ws, |t.rows|);
    LinesWidth(y, t, ws, |t.rows|);
    TotalWithin(lines, |lines|, Width(ws));
    JoinLength(lines, |lines|, y.line);
    Product(|lines|, |t.rows| + if t.header then 1 else 0, Width(ws));
  }

  /** The layout chosen: columns if they fit, else records if they hold anything
      and fit, else plain rows; and whatever the cells, it is at most as long as
      the longest of the plain rows, `growth` times those, and one message. */
  method Layout(y: Style, t: Table, maxWidth: nat, growth: nat) returns (text: string, ws: seq<nat>)
    requires StyleOk(y)
    ensures WidthsOk(t.rows, ws)
    ensures var rows, records := PlainRows(y, t), AllRecords(y, t);
            var budget := Max(|rows| * growth, TEXT_MAX_CHARS);
            text == if Width(ws) <= maxWidth && Area(t, ws) <= budget then ColumnsText(y, t, ws)
                    else if records != "" && |records| <= budget then records
                    else rows
    ensures |text| <= Max(|PlainRows(y, t)|, Max(|PlainRows(y, t)| * growth, TEXT_MAX_CHARS))
  {
    var rows := UnpaddedRows(y, t);
    var budget := Max(|rows| * growth, TEXT_MAX_CHARS);
    var columns;
    columns, ws := PaddedColumns(y, t, maxWidth, budget);
    if columns.Some? {
      ColumnsLength(y, t, ws);
      return columns.value, ws;
    }
    var records := Records(y, t, budget);
    text := if records.Some? then records.value else rows;
  }

  // ─── No value is lost ───────────────────────────────────────────────────

  ghost predicate Holds(s: string, part: string) { exists a, b :: s == a + part + b }

  lemma HoldsMore(s: string, part: string, more: string)
    requires Holds(s, part)
    ensures Holds(s + more, part)
  {
    var a, b :| s == a + part + b;
    assert s + more == a + part + (b + more);
  }

  lemma HoldsLast(s: string, part: string)
    ensures Holds(s + part, part)
  {
    assert s + part == s + part + "";
  }

  lemma EntryHolds(y: Style, heads: seq<string>, i: nat, value: string, text: string, first: bool)
    ensures Holds(WithEntry(y, heads, i, value, text, first), Cell(heads, i) + value)
  {
    HoldsLast(text + Before(y, text, first), Cell(heads, i) + value);
  }

  lemma EntryKeeps(y: Style, heads: seq<string>, i: nat, value: string, text: string, first: bool, part: string)
    requires Holds(text, part)
    ensures Holds(WithEntry(y, heads, i, value, text, first), part)
  {
    HoldsMore(text, part, Before(y, text, first));
    HoldsMore(text + Before(y, text, first), part, Cell(heads, i) + value);
  }

  lemma {:induction false} RowKeeps(y: Style, heads: seq<string>, row: seq<string>, n: nat, m: nat, out: string, part: string)
    requires n <= m <= |row| && Holds(RowRecords(y, heads, row, n, out), part)
    ensures Holds(RowRecords(y, heads, row, m, out), part)
    decreases m
  {
    if n < m {
      RowKeeps(y, heads, row, n, m - 1, out, part);
      if row[m - 1] != "" {
        EntryKeeps(y, heads, m - 1, row[m - 1], RowRecords(y, heads, row, m - 1, out), NoneYet(row, m - 1), part);
      }
    }
  }

  lemma {:induction false} EachRecorded(y: Style, heads: seq<string>, rows: seq<seq<string>>, from: nat, n: nat, r: nat, i: nat)
    requires from <= r < n <= |rows| && i < |rows[r]| && rows[r][i] != ""
    ensures Holds(RecordsUpTo(y, heads, rows, from, n), Cell(heads, i) + rows[r][i])
    decreases n
  {
    var row, out := rows[n - 1], RecordsUpTo(y, heads, rows, from, n - 1);
    if r < n - 1 {
      EachRecorded(y, heads, rows, from, n - 1, r, i);
      RowKeeps(y, heads, row, 0, |row|, out, Cell(heads, i) + rows[r][i]);
    } else {
      EntryHolds(y, heads, i, row[i], RowRecords(y, heads, row, i, out), NoneYet(row, i));
      RowKeeps(y, heads, row, i + 1, |row|, out, Cell(heads, i) + rows[r][i]);
    }
  }

  /** No value of the table's body is lost in its records: each is there, after
      its label if it has one. */
  lemma NothingUnrecorded(y: Style, t: Table, r: nat, i: nat)
    requires StyleOk(y) && BodyFrom(t) <= r < |t.rows| && i < |t.rows[r]| && t.rows[r][i] != ""
    ensures Holds(AllRecords(y, t), Head(y, Cell(Labels(t), i)) + t.rows[r][i])
  {
    EntryLength(y, Labels(t), i);
    EachRecorded(y, HeadsOf(y, t), t.rows, BodyFrom(t), |t.rows|, r, i);
  }
}
