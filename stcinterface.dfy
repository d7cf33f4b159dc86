/** The non-GUI side of the editor's styled-text control
    (peppy/stcinterface.py): binary files held as one character byte plus one
    style byte per cell, the binary-content guess, the names of modification
    flags, line-ending codes, and the bookkeeping that notices an undone or
    redone line-ending conversion. */
module StcInterface {
  import opened Base

  type Byte = b: int | 0 <= b < 256

  /** One position of the control: its character byte and its style byte. */
  datatype Cell = Cell(ch: Byte, style: Byte)

  // ---------------------------------------------------------------------
  // Styled bytes
  // ---------------------------------------------------------------------

  /** `GetStyledText`: every cell as its character byte followed by its style byte. */
  function StyledBytes(cells: seq<Cell>): (r: seq<Byte>)
    ensures |r| == 2 * |cells|
    ensures forall i :: 0 <= i < |cells| ==> r[2 * i] == cells[i].ch && r[2 * i + 1] == cells[i].style
  {
    if |cells| == 0 then []
    else
      var rest := StyledBytes(cells[1..]);
      assert forall i :: 1 <= i < |cells| ==> cells[i] == cells[1..][i - 1];
      [cells[0].ch, cells[0].style] + rest
  }

  /** How `AddStyledText` reads a byte string: consecutive (character, style)
      pairs; an odd trailing byte is not a cell. */
  function Cells(styled: seq<Byte>): (r: seq<Cell>)
    ensures |r| == |styled| / 2
    ensures forall i :: 0 <= i < |r| ==> r[i] == Cell(styled[2 * i], styled[2 * i + 1])
  {
    if |styled| < 2 then []
    else
      var rest := Cells(styled[2..]);
      [Cell(styled[0], styled[1])] + rest
  }

  /** The character bytes of a run of cells. */
  function Chars(cells: seq<Cell>): (r: seq<Byte>)
    ensures |r| == |cells|
    ensures forall i :: 0 <= i < |cells| ==> r[i] == cells[i].ch
  {
    seq(|cells|, i requires 0 <= i < |cells| => cells[i].ch)
  }

  /** `s[::2]` */
  function EvenPositions(s: seq<Byte>): (r: seq<Byte>)
    ensures |r| == (|s| + 1) / 2
    ensures forall i :: 0 <= i < |r| ==> r[i] == s[2 * i]
  {
    if |s| == 0 then []
    else if |s| == 1 then [s[0]]
    else
      var rest := EvenPositions(s[2..]);
      [s[0]] + rest
  }

  /** `'\0'.join(txt) + '\0'` for a non-empty `txt`: every byte followed by a
      zero style byte. */
  function StyledOf(txt: seq<Byte>): (r: seq<Byte>)
    ensures |r| == 2 * |txt|
    ensures forall i :: 0 <= i < |txt| ==> r[2 * i] == txt[i] && r[2 * i + 1] == 0
  {
    if |txt| == 0 then []
    else
      var rest := StyledOf(txt[1..]);
      assert forall i :: 1 <= i < |txt| ==> txt[i] == txt[1..][i - 1];
      [txt[0], 0] + rest
  }

  /** The cells `readFrom` adds hold the file's bytes, in order, with style 0. */
  lemma ReadCells(txt: seq<Byte>)
    ensures Chars(Cells(StyledOf(txt))) == txt
    ensures forall i :: 0 <= i < |txt| ==> Cells(StyledOf(txt))[i].style == 0
  {
    var styled := StyledOf(txt);
    var cs := Cells(styled);
    assert |cs| == |txt|;
    forall i | 0 <= i < |txt|
      ensures cs[i] == Cell(txt[i], 0)
    {
      assert cs[i] == Cell(styled[2 * i], styled[2 * i + 1]);
    }
  }

  /** What `writeTo` keeps of the styled text is exactly the character bytes. */
  lemma WrittenChars(cells: seq<Cell>)
    ensures EvenPositions(StyledBytes(cells)) == Chars(cells)
  {
  }

  /** Reading the styled text back cell by cell gives the same cells. */
  lemma CellsRoundTrip(cells: seq<Cell>)
    ensures Cells(StyledBytes(cells)) == cells
  {
  }

  // ---------------------------------------------------------------------
  // Binary guess
  // ---------------------------------------------------------------------

  /** A byte `GuessBinary` counts as binary: below 8, 14..31, or above 126. */
  predicate IsBinaryByte(ch: int) { ch < 8 || (ch > 13 && ch < 32) || ch > 126 }

  /** The number of binary bytes in `s`. */
  function BinaryCount(s: seq<Byte>): (n: int)
    ensures 0 <= n <= |s|
  {
    if |s| == 0 then 0
    else BinaryCount(s[..|s| - 1]) + (if IsBinaryByte(s[|s| - 1]) then 1 else 0)
  }

  /** The verdict of `GuessBinary(amount, percentage)` on a document whose
      characters are `chars`: more binary bytes among the first `amount` than
      `amount / percentage` (Python 2 integer division). */
  function GuessedBinary(chars: seq<Byte>, amount: int, percentage: int): bool
    requires 0 <= amount && percentage != 0
  {
    var endpos := if |chars| > amount then amount else |chars|;
    BinaryCount(chars[..endpos]) > FloorDiv(endpos, percentage)
  }

  /** Only the first `amount` characters matter. */
  lemma GuessedBinaryPrefix(chars: seq<Byte>, more: seq<Byte>, amount: int, percentage: int)
    requires 0 <= amount <= |chars| && percentage != 0
    ensures GuessedBinary(chars + more, amount, percentage) == GuessedBinary(chars, amount, percentage)
  {
    assert (chars + more)[..amount] == chars[..amount];
  }

  /** Text made only of printable ASCII and the control characters 8..13
      is never taken for binary. */
  lemma {:induction false} TextIsNotBinary(chars: seq<Byte>, amount: int, percentage: int)
    requires 0 <= amount && percentage > 0
    requires forall i :: 0 <= i < |chars| ==> !IsBinaryByte(chars[i])
    ensures !GuessedBinary(chars, amount, percentage)
  {
    var endpos := if |chars| > amount then amount else |chars|;
    var head := chars[..endpos];
    assert forall i :: 0 <= i < |head| ==> head[i] == chars[i];
    NoBinaryBytes(head);
    assert FloorDiv(endpos, percentage) == endpos / percentage;
    DivNonNegative(endpos, percentage);
  }

  lemma DivNonNegative(a: int, d: int)
    requires a >= 0 && d > 0
    ensures a / d >= 0
  { }

  lemma {:induction false} NoBinaryBytes(s: seq<Byte>)
    requires forall i :: 0 <= i < |s| ==> !IsBinaryByte(s[i])
    ensures BinaryCount(s) == 0
  {
    if |s| > 0 {
      NoBinaryBytes(s[..|s| - 1]);
    }
  }

  // ---------------------------------------------------------------------
  // Modification flags
  // ---------------------------------------------------------------------

  const MOD_INSERTTEXT := 0x1
  const MOD_DELETETEXT := 0x2
  const PERFORMED_UNDO := 0x20
  const PERFORMED_REDO := 0x40
  const LASTSTEPINUNDOREDO := 0x100

  /** The flags `transModType` names, in its order. */
  const ModTable: seq<(int, string)> := [
    (MOD_INSERTTEXT, "InsertText"), (MOD_DELETETEXT, "DeleteText"),
    (0x4, "ChangeStyle"), (0x8, "ChangeFold"), (0x10, "UserFlag"),
    (PERFORMED_UNDO, "Undo"), (PERFORMED_REDO, "Redo"),
    (LASTSTEPINUNDOREDO, "Last-Undo/Redo"), (0x200, "ChangeMarker"),
    (0x400, "B4-Insert"), (0x800, "B4-Delete")]

  /** `flag & modType` is non-zero, for a single-bit `flag`. */
  predicate HasFlag(modType: int, flag: int)
  {
    flag > 0 && (modType / flag) % 2 == 1
  }

  /** The names of the set flags of `table`, each followed by a space. */
  function FlagNames(modType: int, table: seq<(int, string)>): (st: string)
    ensures st == [] || st[|st| - 1] == ' '
  {
    if |table| == 0 then ""
    else
      var last := table[|table| - 1];
      FlagNames(modType, table[..|table| - 1]) + (if HasFlag(modType, last.0) then last.1 + " " else "")
  }

  /** The names are empty exactly when no flag of the table is set. */
  lemma {:induction false} FlagNamesEmpty(modType: int, table: seq<(int, string)>)
    requires forall k :: 0 <= k < |table| ==> |table[k].1| > 0
    ensures FlagNames(modType, table) == "" <==> forall k :: 0 <= k < |table| ==> !HasFlag(modType, table[k].0)
  {
    if |table| > 0 {
      FlagNamesEmpty(modType, table[..|table| - 1]);
    }
  }

  /** One more table entry adds its name when its flag is set. */
  lemma FlagNamesStep(modType: int, table: seq<(int, string)>, i: int)
    requires 0 <= i < |table|
    ensures FlagNames(modType, table[..i + 1])
            == FlagNames(modType, table[..i]) + (if HasFlag(modType, table[i].0) then table[i].1 + " " else "")
  {
    assert table[..i + 1][..i] == table[..i];
  }

  /** Every flag in the table has a non-empty name. */
  lemma ModTableNamed()
    ensures forall k :: 0 <= k < |ModTable| ==> |ModTable[k].1| > 0
  { }

  /** `transModType(modType)` */
  method TransModType(modType: int) returns (st: string)
    ensures st == "UNKNOWN" <==> forall k :: 0 <= k < |ModTable| ==> !HasFlag(modType, ModTable[k].0)
    ensures st != "UNKNOWN" ==> st == FlagNames(modType, ModTable)
  {
    st := "";
    var i := 0;
    while i < |ModTable|
      invariant 0 <= i <= |ModTable|
      invariant st == FlagNames(modType, ModTable[..i])
    {
      var (flag, text) := ModTable[i];
      FlagNamesStep(modType, ModTable, i);
      if HasFlag(modType, flag) {
        st := st + text + " ";
      }
      i := i + 1;
    }
    assert ModTable[..i] == ModTable;
    ModTableNamed();
    FlagNamesEmpty(modType, ModTable);
    if st == "" {
      st := "UNKNOWN";
    }
  }

  // ---------------------------------------------------------------------
  // Line endings
  // ---------------------------------------------------------------------

  const EOL_CRLF := 0
  const EOL_CR := 1
  const EOL_LF := 2

  /** `eol2int` and `int2eol` */
  const Eol2Int: map<string, int> := map["\r" := EOL_CR, "\r\n" := EOL_CRLF, "\n" := EOL_LF]
  const Int2Eol: map<int, string> := map[EOL_CR := "\r", EOL_CRLF := "\r\n", EOL_LF := "\n"]

  /** The two tables are inverse to each other. */
  lemma EolTablesInverse()
    ensures forall s :: s in Eol2Int ==> Eol2Int[s] in Int2Eol && Int2Eol[Eol2Int[s]] == s
    ensures forall m :: m in Int2Eol ==> Int2Eol[m] in Eol2Int && Eol2Int[Int2Eol[m]] == m
  {
  }

  /** The running statistics of an undo or redo step (`maybe_undo_eolmode`). */
  datatype EolStats = EolStats(total: int, linesep: int, likely: bool)

  /** The modification is a text insertion or deletion performed by undo or redo. */
  predicate IsUndoRedoEdit(mod: int)
  {
    (HasFlag(mod, PERFORMED_UNDO) || HasFlag(mod, PERFORMED_REDO))
    && (HasFlag(mod, MOD_INSERTTEXT) || HasFlag(mod, MOD_DELETETEXT))
  }

  /** The statistics after one more undone or redone edit of `text` in a
      document of `lineCount` lines. */
  function EolStep(prev: Option<EolStats>, mod: int, text: string, lineCount: int): (r: EolStats)
    ensures r.total == (if prev.None? then 0 else prev.value.total) + 1
    ensures (prev.None? || prev.value.linesep <= prev.value.total) ==> r.linesep <= r.total
    ensures prev.Some? && prev.value.likely ==> r.likely
    ensures r.likely && !(prev.Some? && prev.value.likely) ==>
      HasFlag(mod, LASTSTEPINUNDOREDO) && r.linesep == r.total && r.linesep >= lineCount - 1
  {
    var stats := if prev.None? then EolStats(0, 0, false) else prev.value;
    var total := stats.total + 1;
    var linesep := if text == "\n" || text == "\r" then stats.linesep + 1 else stats.linesep;
    var likely := if HasFlag(mod, LASTSTEPINUNDOREDO) && linesep == total && linesep >= lineCount - 1
                  then true else stats.likely;
    EolStats(total, linesep, likely)
  }

  // ---------------------------------------------------------------------
  // The control
  // ---------------------------------------------------------------------

  /** The document of a `PeppyBaseSTC`: its cells, the caret and the
      line-ending mode, and the undo statistics. */
  class Stc {
    var cells: seq<Cell>
    var caret: int
    var eolMode: int
    var undoEol: Option<EolStats>

    predicate Valid()
      reads this
    {
      0 <= caret <= |cells| && (undoEol.Some? ==> undoEol.value.linesep <= undoEol.value.total)
    }

    /** A control on a fresh empty document. */
    constructor (eolMode: int)
      ensures cells == [] && caret == 0 && this.eolMode == eolMode && undoEol == None
      ensures Valid()
    {
      cells, caret := [], 0;
      this.eolMode := eolMode;
      undoEol := None;
    }

    /** `GetStyledText(start, end)` */
    function StyledText(start: int, end: int): (r: seq<Byte>)
      reads this
      requires 0 <= start <= end <= |cells|
      ensures |r| == 2 * (end - start)
    {
      StyledBytes(cells[start..end])
    }

    /** `AddStyledText(styled)`: the cells inserted at the caret, which moves past them. */
    method AddStyledText(styled: seq<Byte>)
      requires Valid()
      modifies this`cells, this`caret
      ensures cells == old(cells[..caret]) + Cells(styled) + old(cells[caret..])
      ensures caret == old(caret) + |styled| / 2
      ensures Valid()
    {
      cells := cells[..caret] + Cells(styled) + cells[caret..];
      caret := caret + |styled| / 2;
    }

    /** `readFrom(fh)` with `txt` the bytes read from the file. */
    method ReadFrom(txt: seq<Byte>)
      requires Valid()
      modifies this`cells, this`caret
      ensures cells == old(cells[..caret]) + Cells(StyledOf(txt)) + old(cells[caret..])
      ensures caret == old(caret) + |txt|
      ensures Valid()
    {
      if |txt| > 0 {
        AddStyledText(StyledOf(txt));
      } else {
        assert Cells(StyledOf(txt)) == [];
        assert cells[..caret] + [] + cells[caret..] == cells;
      }
    }

    /** `writeTo(fh)`: the bytes written are the character bytes of every cell. */
    method WriteTo() returns (out: seq<Byte>)
      ensures out == Chars(cells)
    {
      var numchars := |cells|;
      var txt := StyledText(0, numchars);
      out := EvenPositions(txt[0..numchars * 2]);
      WrittenChars(cells);
      assert cells[0..numchars] == cells;
    }

    /** `GetBinaryData(start, end)`: the character bytes of `start..end`. */
    function BinaryData(start: int, end: int): (r: seq<Byte>)
      reads this
      requires 0 <= start <= end <= |cells|
      ensures r == Chars(cells[start..end])
    {
      WrittenChars(cells[start..end]);
      EvenPositions(StyledText(start, end))
    }

    /** `GuessBinary(amount, percentage)`; a zero percentage is a division by zero. */
    method GuessBinary(amount: int, percentage: int) returns (binary: bool)
      requires 0 <= amount && percentage != 0
      ensures binary == GuessedBinary(Chars(cells), amount, percentage)
    {
      var endpos := |cells|;
      if endpos > amount {
        endpos := amount;
      }
      var data := BinaryData(0, endpos);
      var count := 0;
      var i := 0;
      while i < |data|
        invariant 0 <= i <= |data|
        invariant count == BinaryCount(data[..i])
      {
        if IsBinaryByte(data[i]) {
          count := count + 1;
        }
        assert data[..i + 1][..i] == data[..i];
        i := i + 1;
      }
      assert data[..i] == data;
      assert Chars(cells)[..endpos] == data;
      binary := count > FloorDiv(endpos, percentage);
    }

    /** `getLinesep()`: `None` is the `KeyError` of an unknown mode. */
    function Linesep(): (r: Option<string>)
      reads this
      ensures r.Some? <==> eolMode == EOL_CRLF || eolMode == EOL_CR || eolMode == EOL_LF
      ensures r.Some? ==> r.value in Eol2Int && Eol2Int[r.value] == eolMode
    {
      if eolMode in Int2Eol then Some(Int2Eol[eolMode]) else None
    }

    /** The line-ending part of `OnModified` for a modification of type `mod`
        carrying `text`, in a document of `lineCount` lines. */
    method OnModified(mod: int, text: string, lineCount: int)
      requires Valid()
      modifies this`undoEol
      ensures Valid()
      ensures !IsUndoRedoEdit(mod) ==> undoEol == old(undoEol)
      ensures IsUndoRedoEdit(mod) ==> undoEol == Some(EolStep(old(undoEol), mod, text, lineCount))
    {
      if IsUndoRedoEdit(mod) {
        var stats := if undoEol.None? then EolStats(0, 0, false) else undoEol.value;
        stats := stats.(total := stats.total + 1);
        if text == "\n" || text == "\r" {
          stats := stats.(linesep := stats.linesep + 1);
        }
        if HasFlag(mod, LASTSTEPINUNDOREDO) {
          if stats.linesep == stats.total && stats.linesep >= lineCount - 1 {
            stats := stats.(likely := true);
          }
        }
        undoEol := Some(stats);
      }
    }

    /** `checkUndoEOL()` after `Undo`/`Redo`: the statistics are dropped, and
        `redetect` says whether the line endings are to be detected again. */
    method CheckUndoEol() returns (redetect: bool)
      requires Valid()
      modifies this`undoEol
      ensures redetect <==> old(undoEol).Some? && old(undoEol).value.likely
      ensures undoEol == None && Valid()
    {
      redetect := undoEol.Some? && undoEol.value.likely;
      undoEol := None;
    }
  }
}
