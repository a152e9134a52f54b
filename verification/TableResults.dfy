/**
 What a table's text shows, whichever layout it is in: where every cell stands.
 */
module TableResults {
  import opened Basics
  import opened Texts
  import opened Tables

  // ─── Joining ────────────────────────────────────────────────────────────

  /** The parts, one after the other, with `sep` between each two. */
  ghost predicate IsJoined(text: string, parts: seq<string>, sep: string)
    decreases |parts|
  {
    if |parts| == 0 then text == ""
    else if |parts| == 1 then text == parts[0]
    else parts[0] + sep <= text && IsJoined(text[|parts[0] + sep|..], parts[1..], sep)
  }

  /** One more part in front. */
  lemma JoinedBefore(first: string, sep: string, rest: string, parts: seq<string>)
    requires parts != [] && IsJoined(rest, parts, sep)
    ensures IsJoined(first + sep + rest, [first] + parts, sep)
  {
    assert ([first] + parts)[1..] == parts && (first + sep + rest)[|first + sep|..] == rest;
  }

  /** One more part behind. */
  lemma {:induction false} JoinedMore(text: string, parts: seq<string>, sep: string, last: string)
    requires IsJoined(text, parts, sep)
    ensures IsJoined(if parts == [] then last else text + sep + last, parts + [last], sep)
    decreases |parts|
  {
    if |parts| == 1 {
      JoinedBefore(text, sep, last, [last]);
    } else if |parts| > 1 {
      var rest := text[|parts[0] + sep|..];
      JoinedMore(rest, parts[1..], sep, last);
      JoinedBefore(parts[0], sep, rest + sep + last, parts[1..] + [last]);
      assert parts[0] + sep + (rest + sep + last) == text + sep + last;
      assert [parts[0]] + (parts[1..] + [last]) == parts + [last];
    }
  }

  lemma {:induction false} JoinFirstIs(parts: seq<string>, n: nat, sep: string)
    requires n <= |parts|
    ensures IsJoined(JoinFirst(parts, n, sep), parts[..n], sep)
  {
    if n > 0 {
      JoinFirstIs(parts, n - 1, sep);
      JoinedMore(JoinFirst(parts, n - 1, sep), parts[..n - 1], sep, parts[n - 1]);
      assert parts[..n] == parts[..n - 1] + [parts[n - 1]];
    }
  }

  lemma JoinIs(parts: seq<string>, sep: string)
    ensures IsJoined(Join(parts, sep), parts, sep)
  {
    JoinFirstIs(parts, |parts|, sep);
    assert parts[..|parts|] == parts;
  }

  // ─── Lines ──────────────────────────────────────────────────────────────

  /** How many lines a table has: its rows', and the rule under its header. */
  function LineCount(t: Table): nat { |t.rows| + if t.header && t.rows != [] then 1 else 0 }

  /** The line of row `r`: those after the header are one further down. */
  function LineOf(t: Table, r: nat): nat { if t.header && r > 0 then r + 1 else r }

  // ─── Plain rows ─────────────────────────────────────────────────────────

  /** The row's cells in order, up to the last that is not empty. */
  ghost predicate IsPlainRow(line: string, row: seq<string>) {
    exists k: nat ::
      && k <= |row| && (k > 0 ==> row[k - 1] != "") && (forall j :: k <= j < |row| ==> row[j] == "")
      && IsJoined(line, row[..k], " | ")
  }

  ghost predicate ArePlainRows(t: Table, lines: seq<string>) {
    && |lines| == LineCount(t)
    && (forall r :: 0 <= r < |t.rows| ==> IsPlainRow(lines[LineOf(t, r)], t.rows[r]))
    && (t.header && t.rows != [] ==> lines[1] == "\U{2014}\U{2014}\U{2014}")
  }

  ghost predicate IsPlain(t: Table, text: string) {
    exists lines :: ArePlainRows(t, lines) && IsJoined(text, lines, "\n")
  }

  lemma {:induction false} LengthIs(row: seq<string>, n: nat)
    requires n <= |row|
    ensures var k := Length(row, n); (k > 0 ==> row[k - 1] != "") && forall j :: k <= j < n ==> row[j] == ""
  {
    if n > 0 && row[n - 1] == "" {
      LengthIs(row, n - 1);
    }
  }

  lemma RowTextIs(row: seq<string>)
    ensures IsPlainRow(RowText(STYLE, row), row)
  {
    LengthIs(row, |row|);
    JoinFirstIs(row, Length(row, |row|), " | ");
  }

  function FirstRows(t: Table, n: nat): Table
    requires n <= |t.rows|
  {
    Table(t.rows[..n], t.header)
  }

  lemma {:induction false} RowLinesAre(t: Table, n: nat)
    requires n <= |t.rows|
    ensures ArePlainRows(FirstRows(t, n), RowLines(STYLE, t, n))
  {
    if n > 0 {
      RowLinesAre(t, n - 1);
      RowTextIs(t.rows[n - 1]);
      var before, lines := RowLines(STYLE, t, n - 1), RowLines(STYLE, t, n);
      forall r | 0 <= r < n
        ensures IsPlainRow(lines[LineOf(t, r)], t.rows[r])
      {
        if r < n - 1 {
          assert FirstRows(t, n - 1).rows[r] == t.rows[r];
          assert lines[LineOf(t, r)] == before[LineOf(t, r)];
        }
      }
    }
  }

  /** The plain rows: every row's line has its cells in order up to its last value,
      and a rule goes under the header; so no value is lost. */
  lemma PlainRowsShow(t: Table)
    ensures IsPlain(t, PlainRows(STYLE, t))
  {
    RowLinesAre(t, |t.rows|);
    assert FirstRows(t, |t.rows|) == t;
    JoinIs(RowLines(STYLE, t, |t.rows|), "\n");
  }

  // ─── Columns ────────────────────────────────────────────────────────────

  /** Where column `i` begins: after the widths before it, and a separator each. */
  function Offset(ws: seq<nat>, i: nat): nat
    requires i <= |ws|
  {
    if i == 0 then 0 else Offset(ws, i - 1) + ws[i - 1] + 3
  }

  /** Column `i` of a line of `n` columns: the row's cell at its offset, then spaces
      only, then a separator unless it is the last. */
  ghost predicate CellStands(p: string, row: seq<string>, ws: seq<nat>, n: nat, i: nat)
    requires i < n <= |ws|
  {
    var cell, at := if i < |row| then row[i] else "", Offset(ws, i);
    && |cell| <= ws[i] && at + ws[i] <= |p| && p[at..at + |cell|] == cell
    && (forall k :: at + |cell| <= k < at + ws[i] ==> p[k] == ' ')
    && (i + 1 < n ==> at + ws[i] + 3 <= |p| && p[at + ws[i]..at + ws[i] + 3] == " | ")
  }

  ghost predicate RowStands(p: string, row: seq<string>, ws: seq<nat>, n: nat)
    requires n <= |ws|
  {
    && |p| + 3 == (if n == 0 then 3 else Offset(ws, n))
    && forall i :: 0 <= i < n ==> CellStands(p, row, ws, n, i)
  }

  /** `line` is `p` up to its last character that is not white space. */
  ghost predicate IsTrimmed(line: string, p: string) {
    && line <= p && (forall k :: |line| <= k < |p| ==> IsWhitespace(p[k]))
    && (line == "" || !IsWhitespace(Last(line)))
  }

  ghost predicate LineStands(line: string, row: seq<string>, ws: seq<nat>) {
    exists p :: RowStands(p, row, ws, |ws|) && IsTrimmed(line, p)
  }

  /** As many dashes as each column is wide, one at least, joined by `-|-`. */
  ghost predicate IsRule(line: string, ws: seq<nat>) {
    exists dashes: seq<string> ::
      && |dashes| == |ws| && IsJoined(line, dashes, "-|-")
      && forall i :: 0 <= i < |ws| ==> |dashes[i]| == Max(ws[i], 1) && forall c :: c in dashes[i] ==> c == '-'
  }

  ghost predicate AreColumns(t: Table, ws: seq<nat>, lines: seq<string>) {
    && |lines| == LineCount(t)
    && (forall r :: 0 <= r < |t.rows| ==> LineStands(lines[LineOf(t, r)], t.rows[r], ws))
    && (t.header && t.rows != [] ==> IsRule(lines[1], ws))
  }

  ghost predicate IsColumns(t: Table, ws: seq<nat>, text: string) {
    exists lines :: AreColumns(t, ws, lines) && IsJoined(text, lines, "\n")
  }

  lemma {:induction false} RepeatIs(c: char, n: nat)
    ensures forall k :: 0 <= k < n ==> Repeat(c, n)[k] == c
  {
    if n > 0 {
      RepeatIs(c, n - 1);
    }
  }

  lemma {:induction false} PaddedAt(row: seq<string>, ws: seq<nat>, n: nat, i: nat)
    requires i < n <= |ws|
    ensures Padded(row, ws, n)[i] == PadTo(Cell(row, i), ws[i])
  {
    if i < n - 1 {
      PaddedAt(row, ws, n - 1, i);
    }
  }

  lemma PadToIs(cell: string, width: nat)
    requires |cell| <= width
    ensures IsPadded(PadTo(cell, width), cell, width)
  {
    RepeatIs(' ', width - |cell|);
  }

  lemma SliceOfFront(p: string, more: string, from: nat, to: nat)
    requires from <= to <= |p|
    ensures (p + more)[from..to] == p[from..to]
  {
  }

  lemma SliceOfBack(p: string, sep: string, last: string)
    ensures (p + (sep + last))[|p|..|p| + |sep|] == sep
  {
  }

  lemma CellStays(p: string, row: seq<string>, ws: seq<nat>, n: nat, i: nat, last: string)
    requires i < n < |ws| && |p| + 3 == Offset(ws, n) && CellStands(p, row, ws, n, i)
    ensures CellStands(p + (" | " + last), row, ws, n + 1, i)
  {
    var cell, at, more := Cell(row, i), Offset(ws, i), " | " + last;
    SliceOfFront(p, more, at, at + |cell|);
    if i + 1 < n {
      SliceOfFront(p, more, at + ws[i], at + ws[i] + 3);
    } else {
      SliceOfBack(p, " | ", last);
    }
  }

  /** `s` is a cell, with spaces behind it up to `width`. */
  ghost predicate IsPadded(s: string, cell: string, width: nat) {
    |s| == width && cell <= s && forall k :: |cell| <= k < width ==> s[k] == ' '
  }

  lemma LastStands(before: string, row: seq<string>, ws: seq<nat>, n: nat, last: string)
    requires n < |ws| && |before| == Offset(ws, n) && IsPadded(last, Cell(row, n), ws[n])
    ensures CellStands(before + last, row, ws, n + 1, n)
  {
    var q, cell, at := before + last, Cell(row, n), Offset(ws, n);
    assert q[at..at + |cell|] == last[..|cell|];
    forall k | at + |cell| <= k < at + ws[n]
      ensures q[k] == ' '
    {
      assert q[k] == last[k - at];
    }
  }

  lemma OneMoreStands(p: string, row: seq<string>, ws: seq<nat>, n: nat, last: string)
    requires n < |ws| && RowStands(p, row, ws, n) && IsPadded(last, Cell(row, n), ws[n])
    ensures RowStands(if n == 0 then last else p + " | " + last, row, ws, n + 1)
  {
    if n == 0 {
      LastStands("", row, ws, n, last);
      assert "" + last == last;
    } else {
      var q, m := p + " | " + last, n + 1;
      LastStands(p + " | ", row, ws, n, last);
      forall i | 0 <= i < n
        ensures CellStands(q, row, ws, m, i)
      {
        CellStays(p, row, ws, n, i, last);
        assert q == p + (" | " + last);
      }
    }
  }

  /** A row's cells, each padded to its column. */
  ghost predicate AllPadded(cells: seq<string>, row: seq<string>, ws: seq<nat>) {
    |cells| == |ws| && forall i :: 0 <= i < |ws| ==> IsPadded(cells[i], Cell(row, i), ws[i])
  }

  lemma PaddedAll(row: seq<string>, ws: seq<nat>)
    requires RowFits(row, ws)
    ensures AllPadded(Padded(row, ws, |ws|), row, ws)
  {
    forall i | 0 <= i < |ws|
      ensures IsPadded(Padded(row, ws, |ws|)[i], Cell(row, i), ws[i])
    {
      PaddedAt(row, ws, |ws|, i);
      PadToIs(Cell(row, i), ws[i]);
    }
  }

  lemma {:induction false} RowStandsUpTo(cells: seq<string>, row: seq<string>, ws: seq<nat>, n: nat)
    requires n <= |ws| && AllPadded(cells, row, ws)
    ensures RowStands(JoinFirst(cells, n, " | "), row, ws, n)
  {
    if n > 0 {
      RowStandsUpTo(cells, row, ws, n - 1);
      OneMoreStands(JoinFirst(cells, n - 1, " | "), row, ws, n - 1, cells[n - 1]);
    }
  }

  lemma {:induction false} TrimEndIs(s: string)
    ensures IsTrimmed(TrimEnd(s), s)
  {
    if s != "" && IsWhitespace(Last(s)) {
      TrimEndIs(Front(s));
    }
  }

  lemma RowLineStands(row: seq<string>, ws: seq<nat>)
    requires RowFits(row, ws)
    ensures LineStands(RowLine(STYLE, row, ws), row, ws)
  {
    var cells := Padded(row, ws, |ws|);
    PaddedAll(row, ws);
    RowStandsUpTo(cells, row, ws, |ws|);
    TrimEndIs(Join(cells, " | "));
  }

  lemma {:induction false} DashesAre(ws: seq<nat>, n: nat, i: nat)
    requires i < n <= |ws|
    ensures Dashes(ws, n)[i] == Repeat('-', Max(ws[i], 1))
  {
    if i < n - 1 {
      DashesAre(ws, n - 1, i);
    }
  }

  lemma RuleLineIs(ws: seq<nat>)
    ensures IsRule(RuleLine(STYLE, ws), ws)
  {
    var dashes := Dashes(ws, |ws|);
    JoinIs(dashes, "-|-");
    forall i | 0 <= i < |ws|
      ensures |dashes[i]| == Max(ws[i], 1) && forall c :: c in dashes[i] ==> c == '-'
    {
      DashesAre(ws, |ws|, i);
      RepeatIs('-', Max(ws[i], 1));
    }
  }

  lemma OneMoreLine(t: Table, ws: seq<nat>, n: nat, before: seq<string>, line: string)
    requires 0 < n < |t.rows| && AreColumns(FirstRows(t, n), ws, before) && LineStands(line, t.rows[n], ws)
    ensures AreColumns(FirstRows(t, n + 1), ws, before + [line])
  {
    var all, lines := FirstRows(t, n + 1), before + [line];
    forall r | 0 <= r < n + 1
      ensures LineStands(lines[LineOf(all, r)], all.rows[r], ws)
    {
      if r < n {
        assert FirstRows(t, n).rows[r] == all.rows[r];
        assert lines[LineOf(all, r)] == before[LineOf(all, r)];
      }
    }
  }

  lemma FirstLine(t: Table, ws: seq<nat>, line: string, rule: string)
    requires t.rows != [] && LineStands(line, t.rows[0], ws) && IsRule(rule, ws)
    ensures AreColumns(FirstRows(t, 1), ws, if t.header then [line, rule] else [line])
  {
  }

  lemma PaddedLinesUnfold(t: Table, ws: seq<nat>, n: nat)
    requires 0 < n <= |t.rows|
    ensures var line := RowLine(STYLE, t.rows[n - 1], ws);
            PaddedLines(STYLE, t, ws, n)
            == if n > 1 then PaddedLines(STYLE, t, ws, n - 1) + [line] else if t.header then [line, RuleLine(STYLE, ws)] else [line]
  {
  }

  lemma {:induction false} PaddedLinesAre(t: Table, ws: seq<nat>, n: nat)
    requires n <= |t.rows| && WidthsOk(t.rows, ws)
    ensures AreColumns(FirstRows(t, n), ws, PaddedLines(STYLE, t, ws, n))
  {
    if n > 0 {
      PaddedLinesAre(t, ws, n - 1);
      PaddingFits(t.rows, ws, n - 1);
      RowLineStands(t.rows[n - 1], ws);
      RuleLineIs(ws);
      PaddedLinesUnfold(t, ws, n);
      if n == 1 {
        FirstLine(t, ws, RowLine(STYLE, t.rows[0], ws), RuleLine(STYLE, ws));
      } else {
        OneMoreLine(t, ws, n - 1, PaddedLines(STYLE, t, ws, n - 1), RowLine(STYLE, t.rows[n - 1], ws));
      }
    }
  }

  /** The columns: every cell stands at its column's offset with only spaces up to
      the next separator, and only white space at a line's end is left out. */
  lemma ColumnsShow(t: Table, ws: seq<nat>)
    requires WidthsOk(t.rows, ws)
    ensures IsColumns(t, ws, ColumnsText(STYLE, t, ws))
  {
    PaddedLinesAre(t, ws, |t.rows|);
    assert FirstRows(t, |t.rows|) == t;
    JoinIs(PaddedLines(STYLE, t, ws, |t.rows|), "\n");
  }

  // ─── Widths ─────────────────────────────────────────────────────────────

  /** As wide as some cell of the column, or empty; no cell is wider. */
  ghost predicate IsWidth(rows: seq<seq<string>>, i: nat, w: nat) {
    && (forall r :: 0 <= r < |rows| && i < |rows[r]| ==> |rows[r][i]| <= w)
    && (w == 0 || exists r :: 0 <= r < |rows| && i < |rows[r]| && |rows[r][i]| == w)
  }

  /** As many columns as the longest row has cells. */
  ghost predicate TightWidths(rows: seq<seq<string>>, ws: seq<nat>) {
    && (forall r :: 0 <= r < |rows| ==> |rows[r]| <= |ws|)
    && (|ws| == 0 || exists r :: 0 <= r < |rows| && |rows[r]| == |ws|)
    && forall i :: 0 <= i < |ws| ==> IsWidth(rows, i, ws[i])
  }

  lemma {:induction false} WidestIs(rows: seq<seq<string>>, n: nat, i: nat)
    requires n <= |rows|
    ensures IsWidth(rows[..n], i, Widest(rows, n, i))
  {
    if n > 0 {
      WidestIs(rows, n - 1, i);
      forall r | 0 <= r < n - 1
        ensures rows[..n][r] == rows[..n - 1][r]
      {
      }
    }
  }

  lemma {:induction false} ColumnsIs(rows: seq<seq<string>>, n: nat)
    requires n <= |rows|
    ensures forall r :: 0 <= r < n ==> |rows[r]| <= Columns(rows, n)
    ensures Columns(rows, n) == 0 || exists r :: 0 <= r < n && |rows[r]| == Columns(rows, n)
  {
    if n > 0 {
      ColumnsIs(rows, n - 1);
      assert |rows[n - 1]| <= Columns(rows, n);
    }
  }

  lemma WidthsAreTight(rows: seq<seq<string>>, ws: seq<nat>)
    requires WidthsOk(rows, ws)
    ensures TightWidths(rows, ws)
  {
    ColumnsIs(rows, |rows|);
    assert rows[..|rows|] == rows;
    forall i | 0 <= i < |ws|
      ensures IsWidth(rows, i, ws[i])
    {
      WidestIs(rows, |rows|, i);
    }
  }

  // ─── Records ────────────────────────────────────────────────────────────

  /** A value after its label, if that is not empty. */
  function Entry(labels: seq<string>, i: nat, value: string): string {
    if i < |labels| && labels[i] != "" then labels[i] + ": " + value else value
  }

  /** The entries of a row's first `n` cells: one for each that is not empty. */
  function Entries(labels: seq<string>, row: seq<string>, n: nat): seq<string>
    requires n <= |row|
  {
    if n == 0 then [] else Entries(labels, row, n - 1) + if row[n - 1] == "" then [] else [Entry(labels, n - 1, row[n - 1])]
  }

  /** The entries of each row from `from` to before `n` that has any. */
  function EntryLists(labels: seq<string>, rows: seq<seq<string>>, from: nat, n: nat): seq<seq<string>>
    requires from <= n <= |rows|
    decreases n
  {
    if n == from then [] else
      var lists, entries := EntryLists(labels, rows, from, n - 1), Entries(labels, rows[n - 1], |rows[n - 1]|);
      if |entries| == 0 then lists else lists + [entries]
  }

  /** Each block is its entries, a line each. */
  ghost predicate AreBlocks(blocks: seq<string>, lists: seq<seq<string>>) {
    |blocks| == |lists| && forall k :: 0 <= k < |lists| ==> IsJoined(blocks[k], lists[k], "\n")
  }

  /** The header's cells, if there is one, label the rows after it. */
  ghost predicate AreRecords(t: Table, text: string) {
    var (labels, from) := if t.header && t.rows != [] then (t.rows[0], 1) else ([], 0);
    exists blocks :: AreBlocks(blocks, EntryLists(labels, t.rows, from, |t.rows|)) && IsJoined(text, blocks, "\n\n")
  }

  /** More behind the last part. */
  lemma {:induction false} JoinedLonger(text: string, parts: seq<string>, sep: string, more: string)
    requires parts != [] && IsJoined(text, parts, sep)
    ensures IsJoined(text + more, Front(parts) + [Last(parts) + more], sep)
    decreases |parts|
  {
    if |parts| > 1 {
      var rest, longer := text[|parts[0] + sep|..], Front(parts[1..]) + [Last(parts[1..]) + more];
      JoinedLonger(rest, parts[1..], sep, more);
      JoinedBefore(parts[0], sep, rest + more, longer);
      assert parts[0] + sep + (rest + more) == text + more;
      assert [parts[0]] + longer == Front(parts) + [Last(parts) + more];
    }
  }

  /** What a row's records add: nothing, or one block of its entries after `out`. */
  ghost predicate RowAdds(out: string, blocks: seq<string>, entries: seq<string>, text: string, more: seq<string>) {
    if entries == [] then text == out && more == blocks
    else more != [] && Front(more) == blocks && IsJoined(Last(more), entries, "\n") && IsJoined(text, more, "\n\n") && text != ""
  }

  lemma {:induction false} NoneYetExactly(labels: seq<string>, row: seq<string>, n: nat)
    requires n <= |row|
    ensures NoneYet(row, n) <==> |Entries(labels, row, n)| == 0
  {
    if n > 0 {
      NoneYetExactly(labels, row, n - 1);
    }
  }

  lemma HeadIs(name: string, value: string)
    ensures Head(STYLE, name) + value == if name == "" then value else name + ": " + value
  {
    if name == "" {
      assert "" + value == value;
    }
  }

  lemma EntryIs(labels: seq<string>, i: nat, value: string)
    ensures Cell(Heads(STYLE, labels, |labels|), i) + value == Entry(labels, i, value)
  {
    EntryLength(STYLE, labels, i);
    HeadIs(Cell(labels, i), value);
  }

  lemma FirstEntry(out: string, blocks: seq<string>, entry: string)
    requires IsJoined(out, blocks, "\n\n") && (out == "" <==> blocks == []) && entry != ""
    ensures RowAdds(out, blocks, [entry], out + (if out == "" then "" else "\n\n") + entry, blocks + [entry])
  {
    JoinedMore(out, blocks, "\n\n", entry);
  }

  lemma NextEntry(out: string, blocks: seq<string>, entries: seq<string>, text: string, more: seq<string>, entry: string)
    requires entries != [] && RowAdds(out, blocks, entries, text, more)
    ensures RowAdds(out, blocks, entries + [entry], text + "\n" + entry, blocks + [Last(more) + "\n" + entry])
  {
    JoinedMore(Last(more), entries, "\n", entry);
    JoinedLonger(text, more, "\n\n", "\n" + entry);
    assert text + "\n" + entry == text + ("\n" + entry) && Last(more) + "\n" + entry == Last(more) + ("\n" + entry);
  }

  /** One more entry of a row, the first of its block or behind the ones before. */
  lemma EntryAdded(out: string, blocks: seq<string>, entries: seq<string>, text: string, more: seq<string>, entry: string, first: bool)
    returns (next: seq<string>)
    requires IsJoined(out, blocks, "\n\n") && (out == "" <==> blocks == []) && entry != ""
    requires RowAdds(out, blocks, entries, text, more) && (first <==> |entries| == 0)
    ensures RowAdds(out, blocks, entries + [entry], text + Before(STYLE, text, first) + entry, next)
  {
    if first {
      FirstEntry(out, blocks, entry);
      next := blocks + [entry];
    } else {
      NextEntry(out, blocks, entries, text, more, entry);
      next := blocks + [Last(more) + "\n" + entry];
    }
  }

  lemma EntryIsAdded(labels: seq<string>, i: nat, value: string, text: string, first: bool)
    ensures WithEntry(STYLE, Heads(STYLE, labels, |labels|), i, value, text, first)
            == text + Before(STYLE, text, first) + Entry(labels, i, value)
  {
    EntryIs(labels, i, value);
  }

  lemma OneMoreEntry(labels: seq<string>, row: seq<string>, n: nat)
    requires 0 < n <= |row|
    ensures var entries, entry := Entries(labels, row, n - 1), Entry(labels, n - 1, row[n - 1]);
            Entries(labels, row, n) == (if row[n - 1] == "" then entries else entries + [entry]) && (row[n - 1] != "" ==> entry != "")
  {
  }

  lemma {:induction false} RowRecordsAre(labels: seq<string>, row: seq<string>, n: nat, out: string, blocks: seq<string>)
    returns (more: seq<string>, text: string, entries: seq<string>)
    requires n <= |row| && IsJoined(out, blocks, "\n\n") && (out == "" <==> blocks == [])
    ensures text == RowRecords(STYLE, Heads(STYLE, labels, |labels|), row, n, out) && entries == Entries(labels, row, n)
    ensures RowAdds(out, blocks, entries, text, more)
  {
    if n == 0 {
      more, text, entries := blocks, out, [];
    } else {
      more, text, entries := RowRecordsAre(labels, row, n - 1, out, blocks);
      OneMoreEntry(labels, row, n);
      if row[n - 1] != "" {
        var entry := Entry(labels, n - 1, row[n - 1]);
        var first := NoneYet(row, n - 1);
        NoneYetExactly(labels, row, n - 1);
        EntryIsAdded(labels, n - 1, row[n - 1], text, first);
        more := EntryAdded(out, blocks, entries, text, more, entry, first);
        text, entries := WithEntry(STYLE, Heads(STYLE, labels, |labels|), n - 1, row[n - 1], text, first), entries + [entry];
      }
    }
  }

  lemma OneMoreRow(out: string, before: seq<string>, lists: seq<seq<string>>, entries: seq<string>, text: string, blocks: seq<string>)
    requires AreBlocks(before, lists) && IsJoined(out, before, "\n\n") && (out == "" <==> before == [])
    requires RowAdds(out, before, entries, text, blocks)
    ensures AreBlocks(blocks, if |entries| == 0 then lists else lists + [entries])
    ensures IsJoined(text, blocks, "\n\n") && (text == "" <==> blocks == [])
  {
  }

  lemma {:induction false} RecordsAre(labels: seq<string>, rows: seq<seq<string>>, from: nat, n: nat)
    returns (text: string, blocks: seq<string>)
    requires from <= n <= |rows|
    ensures text == RecordsUpTo(STYLE, Heads(STYLE, labels, |labels|), rows, from, n)
    ensures AreBlocks(blocks, EntryLists(labels, rows, from, n)) && IsJoined(text, blocks, "\n\n") && (text == "" <==> blocks == [])
    decreases n
  {
    if n == from {
      text, blocks := "", [];
    } else {
      var entries;
      var out, before := RecordsAre(labels, rows, from, n - 1);
      blocks, text, entries := RowRecordsAre(labels, rows[n - 1], |rows[n - 1]|, out, before);
      OneMoreRow(out, before, EntryLists(labels, rows, from, n - 1), entries, text, blocks);
    }
  }

  /** The records: a block for each row with a value, a line for each value. */
  lemma RecordsShow(t: Table)
    ensures AreRecords(t, AllRecords(STYLE, t))
  {
    var text, blocks := RecordsAre(Labels(t), t.rows, BodyFrom(t), |t.rows|);
  }

  // ─── The layout chosen ──────────────────────────────────────────────────

  /** What a padded row takes at most: each column's width, or one, and the
      separators. */
  function LineWidth(ws: seq<nat>, n: nat): nat
    requires n <= |ws|
  {
    if n == 0 then 0 else LineWidth(ws, n - 1) + Max(ws[n - 1], 1) + if n == 1 then 0 else 3
  }

  lemma {:induction false} LineWidthIs(ws: seq<nat>, n: nat)
    requires n <= |ws|
    ensures LineWidth(ws, n) == SumFirst(ws, n) + 3 * if n == 0 then 0 else n - 1
  {
    if n > 0 {
      LineWidthIs(ws, n - 1);
    }
  }

  /** Whether the columns are within the limits: a padded row within the width, and
      every line, at that width and a break each, within the budget. */
  predicate ColumnsFit(t: Table, ws: seq<nat>, maxWidth: nat, budget: nat) {
    var lines, width := |t.rows| + if t.header then 1 else 0, LineWidth(ws, |ws|);
    width <= maxWidth && lines * (width + 1) <= budget
  }

  lemma FitIs(t: Table, ws: seq<nat>, maxWidth: nat, budget: nat)
    ensures ColumnsFit(t, ws, maxWidth, budget) <==> Tables.Width(ws) <= maxWidth && Area(t, ws) <= budget
  {
    LineWidthIs(ws, |ws|);
  }

  /** What each layout shows. */
  lemma LayoutsShow(t: Table, ws: seq<nat>)
    requires WidthsOk(t.rows, ws)
    ensures TightWidths(t.rows, ws)
    ensures IsPlain(t, PlainRows(STYLE, t)) && AreRecords(t, AllRecords(STYLE, t)) && IsColumns(t, ws, ColumnsText(STYLE, t, ws))
  {
    WidthsAreTight(t.rows, ws);
    PlainRowsShow(t);
    RecordsShow(t);
    ColumnsShow(t, ws);
  }

  /** A table as text: its columns if a line and the whole are within the limits,
      else its records if there are any within the budget, else its plain rows. */
  method FormatTable(t: Table, maxWidth: nat, growth: nat)
    returns (text: string, ghost ws: seq<nat>, ghost plain: string, ghost records: string)
    ensures TightWidths(t.rows, ws) && IsPlain(t, plain) && AreRecords(t, records)
    ensures var budget := Max(|plain| * growth, TEXT_MAX_CHARS);
            if ColumnsFit(t, ws, maxWidth, budget) then IsColumns(t, ws, text)
            else if records != "" && |records| <= budget then text == records
            else text == plain
    ensures |text| <= Max(|plain|, Max(|plain| * growth, TEXT_MAX_CHARS))
  {
    text, ws := Layout(STYLE, t, maxWidth, growth);
    plain, records := PlainRows(STYLE, t), AllRecords(STYLE, t);
    FitIs(t, ws, maxWidth, Max(|plain| * growth, TEXT_MAX_CHARS));
    LayoutsShow(t, ws);
  }
}
