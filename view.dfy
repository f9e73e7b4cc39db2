/** The renderer (internal/tui/view.go). A frame is given as its parts: the
    search box, the visible rows, the optional detail panel and the status
    line; colours and borders are replaced by plain style labels. */
module View {
  import opened Wrappers
  import opened Commands
  import opened Text
  import opened Session
  import opened Ints

  const ReservedRows := 8
  const MinListHeight := 5
  const MaxDescLen := 50
  const Ellipsis := "..."
  const HelpText := "Ctrl+C: Copy | E: Edit | \U{2191}/\U{2193} or k/j: Navigate | Esc/Ctrl+Q: Quit"
  const ErrorHint := "Press 'e' to edit config or Esc to quit"

  datatype ItemStyle = SelectedItem | NormalItem

  /** One rendered list line and the style it is painted with. */
  datatype Row = Row(style: ItemStyle, line: string)

  datatype Detail = ExamplesPanel(text: string) | DescriptionPanel(text: string)

  datatype StatusLine = StatusMessage(text: string) | HelpLine(text: string)

  datatype Screen =
    | ErrorScreen(text: string)
    | BrowseScreen(searchBox: string, rows: seq<Row>, detail: Option<Detail>, status: StatusLine)

  // ---------------------------------------------------------------------
  // The list window (view.go:40-58)
  // ---------------------------------------------------------------------

  /** Rows available to the list: the terminal height less the rows kept for
      the search box, detail panel and status line, but at least 5. */
  function ListHeight(height: int): (h: int)
    ensures h >= MinListHeight && h >= height - ReservedRows
    ensures h == MinListHeight || h == height - ReservedRows
  {
    if height - ReservedRows < MinListHeight then MinListHeight else height - ReservedRows
  }

  /** The window computation of `renderNormalView`: centre on the cursor,
      clamp at the top, then pull back from the bottom. The result is the
      centred window clamped into the list, and it always shows the
      selected row. */
  method ListWindow(cursor: int, height: int, n: nat) returns (start: int, end: int)
    ensures 0 <= start <= end <= n
    ensures end - start == Min(ListHeight(height), n)
    ensures start == Max(0, Min(cursor - ListHeight(height) / 2, n - ListHeight(height)))
    ensures 0 <= cursor < n ==> start <= cursor < end
  {
    var listHeight := ListHeight(height);
    start := cursor - listHeight / 2;
    if start < 0 {
      start := 0;
    }
    end := start + listHeight;
    if end > n {
      end := n;
      start := end - listHeight;
      if start < 0 {
        start := 0;
      }
    }
  }

  // ---------------------------------------------------------------------
  // The rows (view.go:60-87)
  // ---------------------------------------------------------------------

  /** The description as listed: kept when at most 50 characters long,
      otherwise its first 50 characters followed by "...". */
  function Truncated(desc: string): (r: string)
    ensures |desc| <= MaxDescLen ==> r == desc
    ensures |desc| > MaxDescLen ==> |r| == MaxDescLen + |Ellipsis| && HasSuffix(r, Ellipsis)
    ensures r[..Min(|desc|, MaxDescLen)] == desc[..Min(|desc|, MaxDescLen)]
  {
    if |desc| > MaxDescLen then desc[..MaxDescLen] + Ellipsis else desc
  }

  /** The text of one list line: marker, command, truncated description. */
  function RowLine(marker: string, c: Command): string {
    marker + " " + c.cmd + "  " + Truncated(c.desc)
  }

  /** Row `c` is the one selected row, marked ">"; every other row is normal
      and marked " ". */
  predicate OnlySelected(rows: seq<Row>, c: int) {
    && 0 <= c < |rows|
    && rows[c].style == SelectedItem && |rows[c].line| > 0 && rows[c].line[0] == '>'
    && forall k :: 0 <= k < |rows| && k != c ==>
         rows[k].style == NormalItem && |rows[k].line| > 0 && rows[k].line[0] == ' '
  }

  /** The row for index `i` of the filtered list. */
  function RowAt(filtered: seq<Command>, cursor: int, i: int): Row
    requires 0 <= i < |filtered|
  {
    var selected := i == cursor;
    Row(if selected then SelectedItem else NormalItem, RowLine(if selected then ">" else " ", filtered[i]))
  }

  /** The rows listed for the window `[start, end)`: one per index, the cursor
      row marked ">" and painted as selected, every other row marked " ". */
  function WindowRows(filtered: seq<Command>, cursor: int, start: int, end: int): (rows: seq<Row>)
    requires 0 <= start <= end <= |filtered|
    ensures |rows| == end - start
    ensures forall k :: 0 <= k < |rows| ==>
      var selected := start + k == cursor;
      && rows[k].line == RowLine(if selected then ">" else " ", filtered[start + k])
      && (rows[k].style == SelectedItem <==> selected)
    ensures start <= cursor < end ==> OnlySelected(rows, cursor - start)
  {
    var rows := seq(end - start, k requires 0 <= k < end - start => RowAt(filtered, cursor, start + k));
    assert forall k :: 0 <= k < |rows| ==> rows[k] == RowAt(filtered, cursor, start + k);
    rows
  }

  /** Widening the window by one index appends that index's row. */
  lemma WindowRowsSnoc(filtered: seq<Command>, cursor: int, start: int, i: int)
    requires 0 <= start <= i < |filtered|
    ensures WindowRows(filtered, cursor, start, i + 1)
         == WindowRows(filtered, cursor, start, i) + [RowAt(filtered, cursor, i)]
  {
    var longer := WindowRows(filtered, cursor, start, i + 1);
    var shorter := WindowRows(filtered, cursor, start, i);
    assert forall k :: 0 <= k < |longer| ==> longer[k] == (shorter + [RowAt(filtered, cursor, i)])[k];
  }

  /** The row loop of `renderNormalView`. */
  method RenderRows(filtered: seq<Command>, cursor: int, start: int, end: int) returns (rows: seq<Row>)
    requires 0 <= start <= end <= |filtered|
    ensures rows == WindowRows(filtered, cursor, start, end)
  {
    rows := [];
    var i := start;
    while i < end && i < |filtered|
      invariant start <= i <= end
      invariant rows == WindowRows(filtered, cursor, start, i)
    {
      var cmd := filtered[i];
      var marker := " ";
      if i == cursor {
        marker := ">";
      }
      var line := RowLine(marker, cmd);
      WindowRowsSnoc(filtered, cursor, start, i);
      if i == cursor {
        rows := rows + [Row(SelectedItem, line)];
      } else {
        rows := rows + [Row(NormalItem, line)];
      }
      i := i + 1;
    }
  }

  // ---------------------------------------------------------------------
  // Detail panel, status line, error view (view.go:16-29, 89-112)
  // ---------------------------------------------------------------------

  /** `strings.Join(lines, "\n")`. */
  function JoinLines(lines: seq<string>): string {
    if |lines| == 0 then ""
    else if |lines| == 1 then lines[0]
    else lines[0] + "\n" + JoinLines(lines[1..])
  }

  /** Every joined line appears in the joined text. */
  lemma {:induction false} JoinLinesContains(lines: seq<string>, i: nat)
    requires i < |lines|
    ensures Contains(JoinLines(lines), lines[i])
  {
    if |lines| == 1 {
      ContainsMiddle("", lines[0], "");
      assert "" + lines[0] + "" == lines[0];
    } else if i == 0 {
      ContainsMiddle("", lines[0], "\n" + JoinLines(lines[1..]));
      assert "" + lines[0] + ("\n" + JoinLines(lines[1..])) == JoinLines(lines);
    } else {
      JoinLinesContains(lines[1..], i - 1);
      var rest := JoinLines(lines[1..]);
      var j :| 0 <= j <= |rest| - |lines[i]| && OccursAt(rest, lines[i], j);
      var whole := lines[0] + "\n" + rest;
      var off := |lines[0]| + 1;
      assert whole[off + j..off + j + |lines[i]|] == rest[j..j + |lines[i]|];
      assert OccursAt(whole, lines[i], off + j);
    }
  }

  /** The detail panel: for a valid selection, its examples when it has
      any, else its full description when that was truncated in the list;
      nothing otherwise. */
  function DetailFor(filtered: seq<Command>, cursor: int): Option<Detail>
    requires 0 <= cursor
  {
    if |filtered| > 0 && cursor < |filtered| then
      var selected := filtered[cursor];
      if |selected.examples| > 0 then Some(ExamplesPanel("Examples:\n" + JoinLines(selected.examples)))
      else if |selected.desc| > MaxDescLen then Some(DescriptionPanel(selected.desc))
      else None
    else None
  }

  /** The panel appears only for a valid selection; it lists every example
      when there are any, and otherwise shows the untruncated description
      exactly when the list truncated it. */
  lemma DetailPanelChoice(filtered: seq<Command>, cursor: int)
    requires 0 <= cursor
    ensures var d := DetailFor(filtered, cursor);
      && (d.Some? ==> cursor < |filtered|)
      && (cursor < |filtered| ==>
            var selected := filtered[cursor];
            && (|selected.examples| > 0 ==>
                  d.Some? && d.value.ExamplesPanel? &&
                  forall i :: 0 <= i < |selected.examples| ==> Contains(d.value.text, selected.examples[i]))
            && (|selected.examples| == 0 ==>
                  (d.Some? <==> |selected.desc| > MaxDescLen) &&
                  (d.Some? ==> d.value == DescriptionPanel(selected.desc))))
  {
    if cursor < |filtered| {
      var selected := filtered[cursor];
      if |selected.examples| > 0 {
        var text := "Examples:\n" + JoinLines(selected.examples);
        forall i | 0 <= i < |selected.examples|
          ensures Contains(text, selected.examples[i])
        {
          JoinLinesContains(selected.examples, i);
          var body := JoinLines(selected.examples);
          var j :| 0 <= j <= |body| - |selected.examples[i]| && OccursAt(body, selected.examples[i], j);
          assert text[10 + j..10 + j + |selected.examples[i]|] == body[j..j + |selected.examples[i]|];
          assert OccursAt(text, selected.examples[i], 10 + j);
        }
      }
    }
  }

  /** The status line: the transient message when there is one, otherwise
      the key help. */
  function StatusFor(statusMsg: string): (r: StatusLine)
    ensures r.text != ""
    ensures r.StatusMessage? <==> statusMsg != ""
    ensures r.StatusMessage? ==> r.text == statusMsg
    ensures statusMsg == "" ==> r == HelpLine(HelpText)
  {
    if statusMsg != "" then StatusMessage(statusMsg) else HelpLine(HelpText)
  }

  /** The `%v` text of an error; a nil error prints as "<nil>". */
  function ErrorString(err: Option<string>): string {
    if err.Some? then err.value else "<nil>"
  }

  /** The framed text of the error view. */
  function ErrorText(err: Option<string>): string {
    "\n" + "\U{26A0} Parsing Failed\n\n" + ErrorString(err) + "\n\n" + ErrorHint + "\n"
  }

  /** The error view shows the parse error and the hint to edit or quit. */
  lemma ErrorTextShowsErrorAndHint(e: string)
    ensures Contains(ErrorText(Some(e)), e)
    ensures Contains(ErrorText(Some(e)), ErrorHint)
  {
    var head := "\n" + "\U{26A0} Parsing Failed\n\n";
    ContainsMiddle(head, e, "\n\n" + ErrorHint + "\n");
    assert head + e + ("\n\n" + ErrorHint + "\n") == ErrorText(Some(e));
    ContainsMiddle(head + e + "\n\n", ErrorHint, "\n");
    assert head + e + "\n\n" + ErrorHint + "\n" == ErrorText(Some(e));
  }

  // ---------------------------------------------------------------------
  // View (view.go:8-14, 31-115)
  // ---------------------------------------------------------------------

  /** `View`: error mode shows only the error view; normal mode shows the
      search box, the window of the filtered list around the cursor, the
      detail panel and the status line. */
  method ViewOf(m: Model) returns (screen: Screen)
    requires 0 <= m.cursor
    ensures m.mode == ErrorMode ==> screen == ErrorScreen(ErrorText(m.parseError))
    ensures m.mode == NormalMode ==>
      var n := |m.filteredCommands|;
      var h := ListHeight(m.height);
      var start := Max(0, Min(m.cursor - h / 2, n - h));
      && screen.BrowseScreen?
      && screen.searchBox == "Search: " + m.searchInput + "_"
      && |screen.rows| == Min(h, n)
      && screen.rows == WindowRows(m.filteredCommands, m.cursor, start, start + |screen.rows|)
      && (m.cursor < n ==>
            start <= m.cursor < start + |screen.rows| && OnlySelected(screen.rows, m.cursor - start))
      && (m.Valid() && n > 0 ==> m.cursor < n)
      && screen.detail == DetailFor(m.filteredCommands, m.cursor)
      && screen.status == StatusFor(m.statusMsg)
  {
    if m.mode == ErrorMode {
      return ErrorScreen(ErrorText(m.parseError));
    }
    var searchBox := "Search: " + m.searchInput + "_";
    var start, end := ListWindow(m.cursor, m.height, |m.filteredCommands|);
    var rows := RenderRows(m.filteredCommands, m.cursor, start, end);
    screen := BrowseScreen(searchBox, rows, DetailFor(m.filteredCommands, m.cursor), StatusFor(m.statusMsg));
  }
}
