/**
Reading a selection that leaves the view (`contents_between_rows`): the walk
that moves the scrollback offset a screenful at a time, against one slice of
the whole history.
*/
module ScrollbackWalk {
  import opened Primitives

  datatype Cell = Cell(contents: string, wide: bool)

  datatype Row = Row(cells: seq<Cell>, wrapped: bool)

  function Spaces(n: nat): string {
    seq(n, _ => ' ')
  }

  /** The text of the cells in `[col, end)`: blank cells become spaces only before later text. */
  function CellsText(cells: seq<Cell>, col: nat, end: nat, written: nat, afterWide: bool): string
    requires written <= col + (if afterWide then 1 else 0)
    decreases end - col
  {
    if col >= end || col >= |cells| then ""
    else if afterWide then CellsText(cells, col + 1, end, written, false)
    else if cells[col].contents != "" then
      Spaces(col - written) + cells[col].contents
      + CellsText(cells, col + 1, end, col + (if cells[col].wide then 2 else 1), cells[col].wide)
    else CellsText(cells, col + 1, end, written, cells[col].wide)
  }

  /** The text of columns `[from, to)` of a row; empty when the range is. */
  function RowText(row: Row, from: nat, to: nat): string {
    CellsText(row.cells, from, to, from, false)
  }

  // ---- the emulator's view --------------------------------------------------

  /** The rows in view at a scrollback offset, as the grid chains its two row stores. */
  function VisibleRows(scrollback: seq<Row>, rows: seq<Row>, offset: nat): seq<Row>
    requires offset <= |scrollback|
  {
    AtMost(|rows|, scrollback[|scrollback| - offset..])
    + rows[..if offset <= |rows| then |rows| - offset else 0]
  }

  /** A view is a window of the whole history. */
  lemma VisibleWindow(scrollback: seq<Row>, rows: seq<Row>, offset: nat)
    requires offset <= |scrollback|
    ensures var top := |scrollback| - offset;
            VisibleRows(scrollback, rows, offset) == (scrollback + rows)[top..top + |rows|]
  {
  }

  /** Rows `row..=end` of a view, `row` included whole from `fromCol`. */
  function RowsText(visible: seq<Row>, cols: nat, row: nat, fromCol: nat, end: nat, toCol: nat): string
    requires row <= end < |visible|
    decreases end - row
  {
    if row == end then RowText(visible[row], fromCol, toCol)
    else
      RowText(visible[row], fromCol, cols) + (if visible[row].wrapped then "" else "\n")
      + RowsText(visible, cols, row + 1, 0, end, toCol)
  }

  /** `Screen::contents_between` on rows that exist. */
  function ContentsBetween(visible: seq<Row>, cols: nat, startRow: nat, startCol: nat,
                           endRow: nat, endCol: nat): string
    requires startRow <= endRow < |visible|
  {
    RowsText(visible, cols, startRow, startCol, endRow, endCol)
  }

  // ---- the meaning of a selection -------------------------------------------

  /** A selection over the whole history, rows counted from the oldest. */
  datatype Selection = Selection(first: int, startCol: nat, last: int, endCol: nat, cols: nat)

  function FromCol(s: Selection, row: int): nat
    requires s.cols > 0
  {
    if row == s.first then Min(s.startCol, s.cols - 1) else 0
  }

  function ToCol(s: Selection, row: int): nat {
    if row == s.last then Min(s.endCol, s.cols) else s.cols
  }

  function Max(a: int, b: int): int {
    if a >= b then a else b
  }

  function BreakAfter(history: seq<Row>, s: Selection, row: nat): string
    requires row < |history|
  {
    if row < s.last && !history[row].wrapped then "\n" else ""
  }

  /** The selected text of one row; a break follows an unwrapped row but the last. */
  function RowPart(history: seq<Row>, s: Selection, row: nat): string
    requires s.cols > 0 && row < |history|
  {
    RowText(history[row], FromCol(s, row), ToCol(s, row)) + BreakAfter(history, s, row)
  }

  /** The selected text from history row `row` on. */
  function SelectedFrom(history: seq<Row>, s: Selection, row: nat): string
    requires s.cols > 0
    decreases |history| - row
  {
    if row > s.last || row >= |history| then "" else RowPart(history, s, row) + SelectedFrom(history, s, row + 1)
  }

  /** The same from a row that may lie before the oldest. */
  function SelectedRest(history: seq<Row>, s: Selection, row: int): string
    requires s.cols > 0
  {
    SelectedFrom(history, s, Max(0, row))
  }

  function Selected(history: seq<Row>, s: Selection): string
    requires s.cols > 0
  {
    SelectedFrom(history, s, Max(0, s.first))
  }

  /**
  A selection reaching below the newest row is the selection that ends on it,
  and one row break unless that row wrapped.
  */
  lemma PastTheNewestRow(history: seq<Row>, s: Selection, row: nat)
    requires s.cols > 0 && row < |history| <= s.last
    ensures SelectedFrom(history, s, row)
            == SelectedFrom(history, Clipped(history, s), row) + (if history[|history| - 1].wrapped then "" else "\n")
  {
    LastPart(history, s);
    EndingFrom(history, s, Clipped(history, s), row, BreakAfter(history, s, |history| - 1));
  }

  /** What ends the selection from the newest row ends it from every row above. */
  lemma {:induction false} EndingFrom(history: seq<Row>, s: Selection, clipped: Selection, row: nat, ending: string)
    requires s.cols > 0 && row < |history| <= s.last && clipped == Clipped(history, s)
    requires var newest := |history| - 1;
             SelectedFrom(history, s, newest) == SelectedFrom(history, clipped, newest) + ending
    ensures SelectedFrom(history, s, row) == SelectedFrom(history, clipped, row) + ending
    decreases |history| - row
  {
    if row < |history| - 1 {
      EndingFrom(history, s, clipped, row + 1, ending);
      SamePart(history, s, row);
      Join(RowPart(history, s, row), SelectedFrom(history, clipped, row + 1), ending);
    }
  }

  /** The selection that ends on the newest row, whole. */
  function Clipped(history: seq<Row>, s: Selection): Selection
    requires history != []
  {
    s.(last := |history| - 1, endCol := s.cols)
  }

  lemma SamePart(history: seq<Row>, s: Selection, row: nat)
    requires s.cols > 0 && row < |history| - 1 && |history| <= s.last
    ensures RowPart(history, Clipped(history, s), row) == RowPart(history, s, row)
  {
  }

  lemma LastPart(history: seq<Row>, s: Selection)
    requires s.cols > 0 && history != [] && |history| <= s.last
    ensures var newest := |history| - 1;
            SelectedFrom(history, s, newest)
            == SelectedFrom(history, Clipped(history, s), newest) + BreakAfter(history, s, newest)
  {
    var newest, clipped := |history| - 1, Clipped(history, s);
    var text := RowText(history[newest], FromCol(s, newest), ToCol(s, newest));
    assert SelectedFrom(history, s, newest + 1) == "" == SelectedFrom(history, clipped, newest + 1);
    assert RowPart(history, clipped, newest) == text + "";
    WithNothing(text, BreakAfter(history, s, newest));
  }

  lemma WithNothing(text: string, rowBreak: string)
    ensures (text + rowBreak) + "" == ((text + "") + "") + rowBreak
  {
  }

  lemma Join(a: string, b: string, c: string)
    ensures a + (b + c) == (a + b) + c
  {
  }

  /** Rows the history no longer holds are skipped: the selection starts whole at the oldest. */
  lemma {:induction false} OlderThanTheHistory(history: seq<Row>, s: Selection, row: nat)
    requires s.cols > 0 && s.first < 0
    ensures SelectedFrom(history, s, row) == SelectedFrom(history, s.(first := 0, startCol := 0), row)
    decreases |history| - row
  {
    if row < |history| {
      OlderThanTheHistory(history, s, row + 1);
    }
  }

  // ---- one screenful --------------------------------------------------------

  /** Each row of the view is the row of the history that stands there. */
  ghost predicate WindowAt(visible: seq<Row>, history: seq<Row>, top: nat) {
    && top + |visible| <= |history|
    && forall k :: 0 <= k < |visible| ==> visible[k] == history[top + k]
  }

  /** The view's rows for history rows `first..=last`, as part of the selection. */
  lemma {:induction false} ScreenfulText(
    history: seq<Row>, visible: seq<Row>, top: nat, s: Selection, first: nat, last: nat, rest: string)
    requires s.cols > 0 && WindowAt(visible, history, top)
    requires top <= first <= last < top + |visible| && s.first <= first && last <= s.last
    requires rest == SelectedFrom(history, s, last + 1)
    ensures SelectedFrom(history, s, first)
            == ContentsBetween(visible, s.cols, first - top, FromCol(s, first), last - top, ToCol(s, last))
               + BreakAfter(history, s, last) + rest
    decreases last - first
  {
    if first < last {
      ScreenfulText(history, visible, top, s, first + 1, last, rest);
      RowAbove(history, visible, top, s, first, last,
               ContentsBetween(visible, s.cols, first - top + 1, 0, last - top, ToCol(s, last)),
               BreakAfter(history, s, last), rest, SelectedFrom(history, s, first + 1));
    }
  }

  lemma RowAbove(history: seq<Row>, visible: seq<Row>, top: nat, s: Selection, first: nat, last: nat,
                 below: string, rowBreak: string, rest: string, after: string)
    requires s.cols > 0 && WindowAt(visible, history, top)
    requires top <= first < last < top + |visible| && s.first <= first && last <= s.last
    requires below == ContentsBetween(visible, s.cols, first - top + 1, 0, last - top, ToCol(s, last))
    requires after == SelectedFrom(history, s, first + 1) == below + rowBreak + rest
    ensures SelectedFrom(history, s, first)
            == ContentsBetween(visible, s.cols, first - top, FromCol(s, first), last - top, ToCol(s, last))
               + rowBreak + rest
  {
    var head := RowPart(history, s, first);
    assert SelectedFrom(history, s, first) == head + after;
    assert ContentsBetween(visible, s.cols, first - top, FromCol(s, first), last - top, ToCol(s, last)) == head + below;
    JoinScreenful(head, below, rowBreak, rest);
  }

  lemma JoinScreenful(out: string, chunk: string, rowBreak: string, rest: string)
    ensures ((out + chunk) + rowBreak) + rest == out + (chunk + rowBreak + rest)
  {
  }

  lemma JoinChunk(out: string, chunk: string, after: string, before: string)
    requires chunk + after == before
    ensures (out + chunk) + after == out + before
  {
  }

  class Parser {
    var scrollback: seq<Row>
    var rows: seq<Row>
    var cols: u16
    var scrollbackOffset: nat

    ghost predicate Valid()
      reads this
    {
      scrollbackOffset <= |scrollback| && |rows| <= U16_MAX
    }

    /** Every row the pane still has, oldest first. */
    ghost function History(): seq<Row>
      reads this
    {
      scrollback + rows
    }

    method SetScrollback(wanted: nat)
      modifies this`scrollbackOffset
      ensures scrollbackOffset == Min(wanted, |scrollback|)
    {
      scrollbackOffset := Min(wanted, |scrollback|);
    }

    /** The rows in view: a window of the history, one screen tall. */
    method Visible() returns (visible: seq<Row>)
      requires Valid()
      ensures var top := |scrollback| - scrollbackOffset;
              visible == History()[top..top + |rows|]
    {
      VisibleWindow(scrollback, rows, scrollbackOffset);
      visible := VisibleRows(scrollback, rows, scrollbackOffset);
    }

    /** The history rows a selection in view coordinates covers. */
    ghost function InHistory(startRow: int, startCol: nat, endRow: int, endCol: nat): Selection
      reads this
    {
      var base := |scrollback| - scrollbackOffset;
      Selection(base + startRow, startCol, base + endRow, endCol, cols)
    }

    /** Bring a row of the original view to the top of this one, as far as the history allows. */
    method BringToTop(view: nat, row: int) returns (top: int)
      requires view <= |scrollback|
      modifies this`scrollbackOffset
      ensures scrollbackOffset <= |scrollback| && top == row + scrollbackOffset - view
      ensures top >= |rows| && |rows| > 0 ==> |scrollback| - view + row >= |scrollback| + |rows|
      ensures top < 0 ==> scrollbackOffset == |scrollback|
    {
      var wanted := Max(0, Min(view - row, |scrollback|));
      SetScrollback(wanted);
      var shift := scrollbackOffset - view;
      top := row + shift;
    }

    /**
    The text of view rows `viewStart..=viewEnd`, and the row break a chunk
    boundary owes: with what is left to read, the selection from `first` on.
    */
    method ReadScreenful(viewStart: u16, fromCol: u16, viewEnd: u16, toCol: u16, more: bool,
                         ghost history: seq<Row>, ghost s: Selection,
                         ghost first: nat, ghost last: nat, ghost rest: string)
      returns (chunk: string)
      requires Valid() && s.cols == cols > 0 && viewStart <= viewEnd < |rows|
      requires history == scrollback + rows
      requires first == |scrollback| - scrollbackOffset + viewStart && s.first <= first
      requires last == |scrollback| - scrollbackOffset + viewEnd && last <= s.last
      requires fromCol == FromCol(s, first) && toCol == ToCol(s, last) && (more <==> last < s.last)
      requires rest == SelectedFrom(history, s, last + 1)
      ensures chunk + rest == SelectedFrom(history, s, first)
    {
      var visible := Visible();
      ghost var top := |scrollback| - scrollbackOffset;
      assert WindowAt(visible, history, top) && visible[viewEnd] == history[last];
      var text := ContentsBetween(visible, cols, viewStart, fromCol, viewEnd, toCol);
      var rowBreak := if more && !visible[viewEnd].wrapped then "\n" else "";
      assert rowBreak == BreakAfter(history, s, last);
      ScreenfulText(history, visible, top, s, first, last, rest);
      chunk := text + rowBreak;
    }

    /** From `row`, brought into view at `top`, to the last row of the view or of the selection. */
    method ReadFrom(top: nat, row: int, view: nat, startRow: int, startCol: u16, endRow: int, endColExclusive: u16,
                    ghost history: seq<Row>, ghost s: Selection, ghost next: nat, ghost whole: string)
      returns (chunk: string, chunkEnd: int, ghost rest: string)
      requires Valid() && cols > 0 && view <= |scrollback| && top < |rows|
      requires history == scrollback + rows && startRow <= row <= endRow
      requires top == row + scrollbackOffset - view
      requires var base := |scrollback| - view;
               && s == Selection(base + startRow, startCol, base + endRow, endColExclusive, cols)
               && next == base + row
      requires whole == SelectedFrom(history, s, next)
      ensures row <= chunkEnd <= endRow && |scrollback| - view + chunkEnd >= 0
      ensures rest == SelectedFrom(history, s, |scrollback| - view + chunkEnd + 1)
      ensures chunk + rest == whole
    {
      chunkEnd := Min(endRow, |rows| - 1 - (top - row));
      var fromCol := if row == startRow then Min(startCol, cols - 1) else 0;
      var toCol := if chunkEnd == endRow then Min(endColExclusive, cols) else cols;
      var viewEnd := chunkEnd + (top - row);
      ghost var last: nat := |scrollback| - view + chunkEnd;
      rest := SelectedFrom(history, s, last + 1);
      chunk := ReadScreenful(top, fromCol, viewEnd, toCol, chunkEnd < endRow, history, s, next, last, rest);
    }

    /** One turn of the walk: what it adds, and the row it goes on from, or that no further row exists. */
    method WalkOn(view: nat, row: int, startRow: int, startCol: u16, endRow: int, endColExclusive: u16,
                  ghost history: seq<Row>, ghost s: Selection, ghost whole: string)
      returns (done: bool, chunk: string, onward: int, ghost rest: string)
      requires Valid() && |rows| > 0 && cols > 0 && view <= |scrollback|
      requires history == scrollback + rows && startRow <= row <= endRow
      requires var base := |scrollback| - view;
               && s == Selection(base + startRow, startCol, base + endRow, endColExclusive, cols)
               && (row == startRow || base + row >= 0)
               && whole == SelectedRest(history, s, base + row)
      modifies this`scrollbackOffset
      ensures Valid()
      ensures done ==> whole == ""
      ensures !done ==> row < onward && |scrollback| - view + onward >= 0
      ensures !done ==> chunk + rest == whole && rest == SelectedRest(history, s, |scrollback| - view + onward)
    {
      done, chunk, onward, rest := false, "", row, whole;
      var top := BringToTop(view, row);
      if top > |rows| - 1 {
        done := true;
        return;
      }
      if top < 0 {
        onward := view - scrollbackOffset;
        return;
      }
      var chunkEnd;
      chunk, chunkEnd, rest := ReadFrom(top, row, view, startRow, startCol, endRow, endColExclusive, history, s,
                                        |scrollback| - view + row, whole);
      onward := chunkEnd + 1;
    }

    /** The walk itself: row by row of the original view, a screenful at a time. */
    method WalkRows(view: nat, startRow: int, startCol: u16, endRow: int, endColExclusive: u16,
                    ghost history: seq<Row>, ghost s: Selection)
      returns (out: string)
      requires Valid() && |rows| > 0 && cols > 0 && view <= |scrollback|
      requires history == scrollback + rows
      requires var base := |scrollback| - view;
               s == Selection(base + startRow, startCol, base + endRow, endColExclusive, cols)
      modifies this`scrollbackOffset
      ensures out == Selected(history, s)
    {
      ghost var base := |scrollback| - view;
      out := "";
      var row := startRow;
      ghost var rest := Selected(history, s);
      assert out + rest == rest;
      while row <= endRow
        invariant Valid() && row >= startRow && (row == startRow || base + row >= 0)
        invariant rest == SelectedRest(history, s, base + row)
        invariant out + rest == Selected(history, s)
        decreases endRow - row
      {
        var done, chunk, onward;
        ghost var after;
        done, chunk, onward, after :=
          WalkOn(view, row, startRow, startCol, endRow, endColExclusive, history, s, rest);
        if done {
          assert out + "" == out;
          return;
        }
        JoinChunk(out, chunk, after, rest);
        out, row, rest := out + chunk, onward, after;
      }
      assert rest == "" && out + "" == out;
    }

    /**
    The text between two cells of the view, rows counted from the top of what is
    shown: exactly the selected rows of the whole history. The offset is put
    back, and nothing else moves.
    */
    method ContentsBetweenRows(startRow: int, startCol: u16, endRow: int, endColExclusive: u16)
      returns (text: Option<string>)
      requires Valid()
      modifies this`scrollbackOffset
      ensures Valid() && scrollbackOffset == old(scrollbackOffset)
      ensures |rows| == 0 || cols == 0 || startRow > endRow ==> text == None
      ensures |rows| > 0 && cols > 0 && startRow <= endRow ==>
                var wanted := Selected(History(), InHistory(startRow, startCol, endRow, endColExclusive));
                text == if wanted == "" then None else Some(wanted)
    {
      if |rows| == 0 || cols == 0 || startRow > endRow { return None; }
      var view := scrollbackOffset;
      ghost var s := InHistory(startRow, startCol, endRow, endColExclusive);
      var out := WalkRows(view, startRow, startCol, endRow, endColExclusive, History(), s);
      SetScrollback(view);
      assert s == InHistory(startRow, startCol, endRow, endColExclusive);
      return if out == "" then None else Some(out);
    }
  }
}
