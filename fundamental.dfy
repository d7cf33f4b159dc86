/** The editing behaviour shared by the text modes: a new line is indented
    like the one above, a line is re-indented to the previous non-blank
    line with the caret kept in place, braces next to the caret are
    matched, and Editra's file type is checked against the mode. The
    control's queries (line positions, indentation, styles, brace
    matching) are inputs; the document and caret are state. */
module Fundamental {
  import opened Base
  import opened Strings

  /** `wx.stc.STC_P_OPERATOR` */
  const STC_P_OPERATOR := 10

  /** The characters `braceHighlight` treats as braces. */
  const BRACES := "[]{}()"

  /** `GetIndentString(col)`: indentation filling `col` columns. */
  function IndentString(col: nat): (r: string)
    ensures |r| == col && forall i :: 0 <= i < |r| ==> r[i] == ' '
  {
    Repeat(' ', col)
  }

  // ---------------------------------------------------------------------
  // Reindenting one line

  /** What the control reports about the line being re-indented: its
      number, where it starts, where its text starts after the
      indentation, its indentation in columns, and the indentation and
      number of the previous non-blank line. */
  datatype LineState = LineState(linenum: nat, linestart: nat, indpos: nat, indcol: nat, prevind: nat, prevline: int)

  /** `StandardReindentMixin.getReindentString`: the previous non-blank
      line's indentation, unless that line is too far back. */
  function ReindentString(line: LineState): Option<string>
  {
    if (line.prevind < line.indcol && line.prevline < line.linenum - 1) || line.prevline < line.linenum - 2 then None
    else Some(IndentString(line.prevind))
  }

  /** The previous line's indentation is copied when it is the line just
      above; nothing is done when the previous non-blank line is two or
      more lines back and indented less, or three or more lines back. */
  lemma ReindentStringSpec(line: LineState)
    ensures ReindentString(line).Some? ==> ReindentString(line).value == IndentString(line.prevind)
    ensures line.prevline >= line.linenum - 1 ==> ReindentString(line).Some?
    ensures line.prevline < line.linenum - 2 ==> ReindentString(line).None?
    ensures line.prevline == line.linenum - 2 ==> (ReindentString(line).None? <==> line.prevind < line.indcol)
  {
  }

  /** Where `reindentLine` puts the caret once the indentation that ended
      at `indpos` ends at `after`. */
  function ReindentedPos(pos: int, linestart: int, indpos: int, after: int): int
  {
    if pos < linestart then pos
    else if pos - indpos + after < linestart then after
    else if pos < indpos then after
    else pos - indpos + after
  }

  /** A caret before the line stays; one inside the old indentation goes to
      the start of the text; one in the text keeps its distance from the
      start of the text. */
  lemma ReindentedPosSpec(pos: int, linestart: int, indpos: int, after: int)
    requires linestart <= indpos && linestart <= after
    ensures pos < linestart ==> ReindentedPos(pos, linestart, indpos, after) == pos
    ensures linestart <= pos < indpos ==> ReindentedPos(pos, linestart, indpos, after) == after
    ensures indpos <= pos ==> ReindentedPos(pos, linestart, indpos, after) - after == pos - indpos
  {
  }

  /** The document after `reindentLine`: the indentation replaced, or
      nothing changed on the first line or without a new indentation. */
  function Reindented(text: string, line: LineState): (r: string)
    requires line.linestart <= line.indpos <= |text|
  {
    if line.linenum == 0 || ReindentString(line).None? then text
    else text[..line.linestart] + ReindentString(line).value + text[line.indpos..]
  }

  /** The position `reindentLine` returns. The new indentation is blank and
      the old one ended at the first non-blank, so the line's indentation
      now ends right after the new indentation. */
  function ReindentPos(caret: nat, line: LineState): int
  {
    if line.linenum == 0 || ReindentString(line).None? then caret
    else ReindentedPos(caret, line.linestart, line.indpos, line.linestart + |ReindentString(line).value|)
  }

  /** The returned position lies in the re-indented document. */
  lemma ReindentPosInText(text: string, caret: nat, line: LineState)
    requires line.linestart <= line.indpos <= |text| && caret <= |text|
    ensures 0 <= ReindentPos(caret, line) <= |Reindented(text, line)|
  {
  }

  // ---------------------------------------------------------------------
  // A new line

  /** The text `electricReturn` inserts: the line separator and, when the
      caret is inside the indentation, indentation up to the caret's
      column; at the start of the document nothing more; otherwise the
      indentation `findIndent` gives. */
  function NewlineText(linesep: string, col: nat, ind: nat, pos: int, nextInd: nat): (r: string)
    ensures col <= ind ==> r == linesep + IndentString(col)
    ensures col > ind && pos == 0 ==> r == linesep
    ensures col > ind && pos != 0 ==> r == linesep + IndentString(nextInd)
  {
    if col <= ind then linesep + IndentString(col)
    else if pos == 0 then linesep
    else linesep + IndentString(nextInd)
  }

  function Inserted(text: string, pos: nat, s: string): string
    requires pos <= |text|
  {
    text[..pos] + s + text[pos..]
  }

  /** After the insertion the caret sits right after the new text, and the
      text on both sides of it is what was there. */
  lemma InsertedAround(text: string, pos: nat, s: string)
    requires pos <= |text|
    ensures Inserted(text, pos, s)[..pos + |s|] == text[..pos] + s
    ensures Inserted(text, pos, s)[pos + |s|..] == text[pos..]
    ensures |Inserted(text, pos, s)| == |text| + |s|
  {
    assert Inserted(text, pos, s) == (text[..pos] + s) + text[pos..];
  }

  // ---------------------------------------------------------------------
  // Braces

  /** What `braceHighlight` asks the control to do. */
  datatype BraceAction = BadLight(at: int) | Highlight(at: int, opposite: int)

  /** `GetCharAt(i)`: the code of the character, 0 outside the text. */
  function CharAt(text: string, i: int): int
  {
    if 0 <= i < |text| then text[i] as int else 0
  }

  function StyleAt(styles: seq<int>, i: int): int
  {
    if 0 <= i < |styles| then styles[i] else 0
  }

  /** A brace character styled as an operator. */
  predicate IsBraceAt(text: string, styles: seq<int>, i: int)
  {
    CharAt(text, i) != 0 && 0 <= i < |text| && text[i] in BRACES && StyleAt(styles, i) == STC_P_OPERATOR
  }

  /** `braceHighlight()`, with `braceMatch` for the control's `BraceMatch`. */
  function BraceHighlightAction(text: string, styles: seq<int>, caret: nat, braceMatch: int -> int): (r: BraceAction)
  {
    var atCaret :=
      if caret > 0 && IsBraceAt(text, styles, caret - 1) then caret - 1
      else if IsBraceAt(text, styles, caret) then caret
      else -1;
    var opposite := if atCaret >= 0 then braceMatch(atCaret) else -1;
    if atCaret != -1 && opposite == -1 then BadLight(atCaret) else Highlight(atCaret, opposite)
  }

  /** The brace before the caret is preferred to the one after it; a brace
      without a match is flagged; without a brace nothing is lit. */
  lemma BraceHighlightSpec(text: string, styles: seq<int>, caret: nat, braceMatch: int -> int)
    ensures var r := BraceHighlightAction(text, styles, caret, braceMatch);
            caret > 0 && IsBraceAt(text, styles, caret - 1) ==>
              r.at == caret - 1 && (r.BadLight? <==> braceMatch(caret - 1) == -1)
    ensures var r := BraceHighlightAction(text, styles, caret, braceMatch);
            !(caret > 0 && IsBraceAt(text, styles, caret - 1)) && IsBraceAt(text, styles, caret) ==>
              r.at == caret && (r.BadLight? <==> braceMatch(caret) == -1)
    ensures var r := BraceHighlightAction(text, styles, caret, braceMatch);
            !(caret > 0 && IsBraceAt(text, styles, caret - 1)) && !IsBraceAt(text, styles, caret) ==>
              r == Highlight(-1, -1)
    ensures var r := BraceHighlightAction(text, styles, caret, braceMatch);
            r.Highlight? && r.at >= 0 ==> r.opposite == braceMatch(r.at) && r.opposite != -1
  {
  }

  // ---------------------------------------------------------------------
  // Editra file types

  /** What `verifyEditraType` answers: `False`, the extension, or
      `"generic"`. */
  datatype EditraMatch = Unrecognized | Specific(ext: string) | Generic

  /** `FundamentalMode.verifyEditraType(ext, file_type)` for a mode with
      the given keyword and Editra synonym. */
  function VerifyEditraType(keyword: string, synonym: Option<string>, ext: string, fileType: Option<string>): (r: EditraMatch)
    ensures r == Unrecognized <==> fileType.None?
    ensures r.Specific? <==> fileType.Some? && (fileType.value == keyword || synonym == fileType)
    ensures r.Specific? ==> r.ext == ext
  {
    if fileType.None? then Unrecognized
    else if fileType.value == keyword || Some(fileType.value) == synonym then Specific(ext)
    else Generic
  }

  // ---------------------------------------------------------------------
  // The control

  /** The document and caret of a `FundamentalSTC`. */
  class FundamentalStc {
    var text: string
    var caret: nat

    constructor(text: string, caret: nat)
      requires caret <= |text|
      ensures this.text == text && this.caret == caret
    {
      this.text := text;
      this.caret := caret;
    }

    /** `ReindentBase.reindentLine(linenum)` with the standard reindent
        string; the caret field is left to the control. */
    method ReindentLine(line: LineState) returns (pos: int)
      requires line.linestart <= line.indpos <= |text| && caret <= |text|
      modifies this`text
      ensures text == Reindented(old(text), line)
      ensures pos == ReindentPos(caret, line)
      ensures 0 <= pos <= |text|
    {
      ReindentPosInText(text, caret, line);
      if line.linenum == 0 {
        return caret;
      }
      var indstr := ReindentString(line);
      if indstr.None? {
        return caret;
      }
      text := text[..line.linestart] + indstr.value + text[line.indpos..];
      var after := line.linestart + |indstr.value|;
      if caret < line.linestart {
        return caret;
      }
      var newpos := caret - line.indpos + after;
      if newpos < line.linestart {
        return after;
      } else if caret < line.indpos {
        return after;
      }
      return newpos;
    }

    /** `StandardReturnMixin.electricReturn()`: the line is re-indented,
        then the new line goes in at the returned position and the caret
        moves past it. `col` and `ind` are the column of that position and
        the line's indentation, `nextInd` what `findIndent` answers. */
    method ElectricReturn(linesep: string, line: LineState, col: nat, ind: nat, nextInd: nat)
      requires line.linestart <= line.indpos <= |text| && caret <= |text|
      modifies this`text, this`caret
      ensures var pos := ReindentPos(old(caret), line);
              0 <= pos <= |Reindented(old(text), line)| &&
              text == Inserted(Reindented(old(text), line), pos, NewlineText(linesep, col, ind, pos, nextInd)) &&
              caret == pos + |NewlineText(linesep, col, ind, pos, nextInd)|
    {
      var pos := ReindentLine(line);
      var newline := if col <= ind then linesep + IndentString(col)
                     else if pos == 0 then linesep
                     else linesep + IndentString(nextInd);
      text := text[..pos] + newline + text[pos..];
      caret := pos + |newline|;
    }
  }
}
