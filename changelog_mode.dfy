/** The ChangeLog major mode: the code explorer lists every dated entry
    line as a root-level fold item, and the "Add ChangeLog Entry" action
    puts a new dated header at the top of the log unless the topmost entry
    already carries it. The control's lines (as `GetLine` returns them,
    line separator included) and the document text are inputs or state;
    the date and the user's name and e-mail address are inputs. */
module ChangeLogMode {
  import opened Base
  import opened Strings

  // ---------------------------------------------------------------------
  // Fold entries

  /** `GetLine(k)`: the line's text, empty outside the document. */
  function LineAt(lines: seq<string>, k: int): string
  {
    if 0 <= k < |lines| then lines[k] else ""
  }

  /** `getFoldEntryFunctionName`: a line whose first (up to) four
      characters are all digits names an entry and is returned whole;
      any other line, the empty one included, gives "". */
  function EntryName(text: string): (r: string)
    ensures r == text || r == ""
    ensures r != "" <==> |text| > 0 && IsDigitChar(text[0]) && (|text| > 1 ==> IsDigitChar(text[1]))
                         && (|text| > 2 ==> IsDigitChar(text[2])) && (|text| > 3 ==> IsDigitChar(text[3]))
  {
    var head := if |text| < 4 then text else text[..4];
    assert forall i :: 0 <= i < |head| ==> head[i] == text[i];
    if IsDigits(head) then text else ""
  }

  /** `FoldExplorerNode(level, start, end, text)`. */
  datatype FoldNode = FoldNode(level: int, start: int, end: int, text: string)

  /** The last line `iterFoldEntries` looks at: a negative `last_line`
      stands for the document's line count. */
  function LastLine(lines: seq<string>, lastLine: int): (r: int)
    ensures lastLine < 0 ==> r == |lines|
    ensures lastLine >= 0 ==> r == lastLine
  {
    if lastLine < 0 then |lines| else lastLine
  }

  /** The nodes produced for lines `line` up to (not including) `last`:
      one root-level node per line that names an entry, in line order,
      each spanning to `last`. */
  function FoldEntries(lines: seq<string>, line: int, last: int): seq<FoldNode>
    decreases last - line
  {
    if line >= last then []
    else
      var rest := FoldEntries(lines, line + 1, last);
      var name := EntryName(LineAt(lines, line));
      if name != "" then [FoldNode(1, line, last, name)] + rest else rest
  }

  /** Every node is a root-level item for an entry line in `line` up to
      `last`, spanning to `last`. */
  predicate NodesSound(r: seq<FoldNode>, lines: seq<string>, line: int, last: int)
  {
    forall i :: 0 <= i < |r| ==>
      r[i].level == 1 && r[i].end == last && line <= r[i].start < last &&
      r[i].text == EntryName(LineAt(lines, r[i].start)) && r[i].text != ""
  }

  predicate StartsIncrease(r: seq<FoldNode>)
  {
    forall i, j :: 0 <= i < j < |r| ==> r[i].start < r[j].start
  }

  /** The nodes are sound and come in increasing line order. */
  lemma {:induction false} FoldEntriesSound(lines: seq<string>, line: int, last: int)
    ensures NodesSound(FoldEntries(lines, line, last), lines, line, last)
    ensures StartsIncrease(FoldEntries(lines, line, last))
    decreases last - line
  {
    if line < last {
      var rest := FoldEntries(lines, line + 1, last);
      FoldEntriesSound(lines, line + 1, last);
      var name := EntryName(LineAt(lines, line));
      if name != "" {
        var r := [FoldNode(1, line, last, name)] + rest;
        assert FoldEntries(lines, line, last) == r;
        forall i | 0 <= i < |r|
          ensures r[i].level == 1 && r[i].end == last && line <= r[i].start < last
          ensures r[i].text == EntryName(LineAt(lines, r[i].start)) && r[i].text != ""
        {
          if i > 0 {
            assert r[i] == rest[i - 1];
          }
        }
        forall i, j | 0 <= i < j < |r|
          ensures r[i].start < r[j].start
        {
          assert r[j] == rest[j - 1];
          if i > 0 {
            assert r[i] == rest[i - 1];
          }
        }
      } else {
        assert FoldEntries(lines, line, last) == rest;
      }
    }
  }

  /** No entry line is skipped: every line in range that names an entry
      has its node. */
  lemma {:induction false} FoldEntriesComplete(lines: seq<string>, line: int, last: int, k: int)
    requires line <= k < last && EntryName(LineAt(lines, k)) != ""
    ensures exists i :: 0 <= i < |FoldEntries(lines, line, last)| && FoldEntries(lines, line, last)[i].start == k
    decreases last - line
  {
    var r := FoldEntries(lines, line, last);
    if k == line {
      assert r[0].start == k;
    } else {
      FoldEntriesComplete(lines, line + 1, last, k);
      var rest := FoldEntries(lines, line + 1, last);
      var i :| 0 <= i < |rest| && rest[i].start == k;
      if EntryName(LineAt(lines, line)) != "" {
        assert r[i + 1] == rest[i];
      } else {
        assert r[i] == rest[i];
      }
    }
  }

  /** `ChangeLogMode.iterFoldEntries(line, last_line)`, collecting what the
      generator yields. */
  method IterFoldEntries(lines: seq<string>, line: int, lastLine: int) returns (nodes: seq<FoldNode>)
    ensures nodes == FoldEntries(lines, line, LastLine(lines, lastLine))
  {
    var last := if lastLine < 0 then |lines| else lastLine;
    var level := 1;
    nodes := [];
    var k := line;
    ghost var todo := FoldEntries(lines, line, last);
    while k < last
      invariant k == line || line <= k <= last
      invariant todo == FoldEntries(lines, k, last)
      invariant nodes + todo == FoldEntries(lines, line, last)
      decreases last - k
    {
      nodes := YieldEntry(lines, k, last, level, nodes);
      todo := FoldEntries(lines, k + 1, last);
      k := k + 1;
    }
  }

  /** One pass of the generator's loop: the line's node goes out when the
      line names an entry. */
  method YieldEntry(lines: seq<string>, k: int, last: int, level: int, before: seq<FoldNode>) returns (nodes: seq<FoldNode>)
    requires k < last && level == 1
    ensures nodes + FoldEntries(lines, k + 1, last) == before + FoldEntries(lines, k, last)
  {
    var text := EntryName(LineAt(lines, k));
    ghost var rest := FoldEntries(lines, k + 1, last);
    FoldEntriesStep(lines, k, last);
    nodes := before;
    if text != "" {
      var node := FoldNode(level, k, last, text);
      assert before + ([node] + rest) == (before + [node]) + rest;
      nodes := before + [node];
    }
  }

  /** One line further: the line's own node, if it names an entry, comes
      before the rest. */
  lemma FoldEntriesStep(lines: seq<string>, k: int, last: int)
    requires k < last
    ensures var name := EntryName(LineAt(lines, k));
            FoldEntries(lines, k, last)
            == if name != "" then [FoldNode(1, k, last, name)] + FoldEntries(lines, k + 1, last) else FoldEntries(lines, k + 1, last)
  {
  }

  // ---------------------------------------------------------------------
  // Adding an entry

  /** The header of a new entry: the date, two spaces, the full name, two
      spaces, the e-mail address in angle brackets, a blank line and the
      start of the first item. */
  function Header(date: string, name: string, email: string, eol: string): (r: string)
    ensures |r| == |date| + |name| + |email| + 2 * |eol| + 9
    ensures r[..|date|] == date && r[|date|..|date| + 2] == "  "
    ensures r[|r| - 3..] == "\t* "
  {
    date + "  " + name + "  <" + email + ">" + eol + eol + "\t* "
  }

  /** `GetTextRange(0, n)`: the first `n` characters, fewer when the text
      is shorter. */
  function TextHead(text: string, n: nat): (r: string)
  {
    if n <= |text| then text[..n] else text
  }

  /** The document and caret after the action. */
  datatype Edit = Edit(text: string, caret: nat)

  /** `AddChangeLogEntry.action` with header `pretext`: when the document
      already starts with it, only the caret moves past it; otherwise the
      header and two line separators go in at the start. */
  function AddedEntry(text: string, pretext: string, eol: string): Edit
  {
    if TextHead(text, |pretext|) == pretext then Edit(text, |pretext|)
    else Edit(pretext + eol + eol + text, |pretext|)
  }

  /** Afterwards the document starts with the header, the caret is right
      after it, and the old document follows intact; nothing is inserted
      exactly when the document already started with the header. */
  lemma AddedEntrySpec(text: string, pretext: string, eol: string)
    ensures var e := AddedEntry(text, pretext, eol);
            |pretext| <= |e.text| && e.text[..|pretext|] == pretext && e.caret == |pretext|
    ensures var e := AddedEntry(text, pretext, eol);
            e.text == text || e.text == pretext + eol + eol + text
    ensures AddedEntry(text, pretext, eol).text == text <==> |pretext| <= |text| && text[..|pretext|] == pretext
  {
    var e := AddedEntry(text, pretext, eol);
    if TextHead(text, |pretext|) != pretext {
      assert (pretext + eol + eol + text)[..|pretext|] == pretext;
      assert |e.text| == |pretext| + 2 * |eol| + |text|;
    }
  }

  /** Running the action twice with the same header adds it only once. */
  lemma AddedEntryIdempotent(text: string, pretext: string, eol: string)
    ensures var e := AddedEntry(text, pretext, eol);
            AddedEntry(e.text, pretext, eol) == e
  {
    var e := AddedEntry(text, pretext, eol);
    AddedEntrySpec(text, pretext, eol);
    assert TextHead(e.text, |pretext|) == pretext;
  }

  /** A ChangeLog control: its document and caret. */
  class ChangeLogStc {
    var text: string
    var caret: nat

    constructor(text: string)
      ensures this.text == text && this.caret == 0
    {
      this.text := text;
      this.caret := 0;
    }

    /** `AddChangeLogEntry.action`, with `date` the formatted current date
        and `eol` the document's line separator. */
    method AddEntry(date: string, name: string, email: string, eol: string)
      modifies this
      ensures text == AddedEntry(old(text), Header(date, name, email, eol), eol).text
      ensures caret == |Header(date, name, email, eol)|
      ensures text[..caret] == Header(date, name, email, eol)
    {
      var pretext := date + "  " + name + "  <" + email + ">" + eol + eol + "\t* ";
      var posttext := eol + eol;
      AddedEntrySpec(text, pretext, eol);
      var existing := if |pretext| <= |text| then text[..|pretext|] else text;
      if existing == pretext {
        caret := |pretext|;
      } else {
        text := pretext + posttext + text;
        caret := |pretext|;
      }
    }
  }
}
