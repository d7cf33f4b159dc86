/** Python mode's indentation: the indentation `findIndent` proposes for the
    line after a return (more after a block-opening colon, up to an unclosed
    bracket, less after return/pass/break/continue), and `reindent`, which
    indents a line to the lexer's fold depth. The document is the control's
    lines, line separator and lexer styles; the fold level is an input. */
module PythonMode {
  import opened Base
  import opened Strings
  import Fundamental

  /** Lexer styles of `wx.stc`'s Python lexer. */
  const STC_P_DEFAULT := 0
  const STC_P_COMMENTLINE := 1
  const STC_P_WORD := 5
  const STC_P_OPERATOR := Fundamental.STC_P_OPERATOR

  const STC_FOLDLEVELBASE: bv32 := 0x400
  const STC_FOLDLEVELNUMBERMASK: bv32 := 0x0FFF

  /** The words that start the statement a colon may end. */
  const BLOCK_KEYWORDS := ["def", "class", "if", "else", "elif", "while", "for", "try", "except", "finally", "with", "cdef"]

  const BRACKETS := "(){}[]"

  /** What the control knows about the document: its lines without line
      separators, the separator, the lexer's style per position, the tab
      width, the indentation step (`GetIndent`) and whether tabs are used. */
  datatype Doc = Doc(lines: seq<string>, eol: string, styles: seq<int>, tabWidth: nat, indentWidth: nat, useTabs: bool)

  predicate ValidDoc(d: Doc)
  {
    |d.lines| >= 1 && d.tabWidth >= 1
  }

  // ---------------------------------------------------------------------
  // Positions and indentation

  /** `PositionFromLine(k)`. */
  function LineStart(d: Doc, k: nat): nat
    requires k <= |d.lines|
  {
    if k == 0 then 0 else LineStart(d, k - 1) + |d.lines[k - 1]| + |d.eol|
  }

  /** `GetLineEndPosition(k)`: the position of the line's separator. */
  function LineEnd(d: Doc, k: nat): nat
    requires k < |d.lines|
  {
    LineStart(d, k) + |d.lines[k]|
  }

  /** `GetLine(k)`: the line with its separator; the last line has none and
      a line that does not exist is empty. */
  function GetLine(d: Doc, k: int): string
  {
    if 0 <= k < |d.lines| then d.lines[k] + (if k + 1 < |d.lines| then d.eol else "") else ""
  }

  /** The styles of line `k`'s characters. */
  function LineStyles(d: Doc, k: nat): (r: seq<int>)
    requires k < |d.lines|
    ensures |r| == |d.lines[k]|
  {
    seq(|d.lines[k]|, i requires 0 <= i < |d.lines[k]| => Fundamental.StyleAt(d.styles, LineStart(d, k) + i))
  }

  predicate IsBlank(c: char) { c == ' ' || c == '\t' }

  /** How many spaces and tabs start `s`: the distance from the line's start
      to `GetLineIndentPosition`. */
  function IndentLength(s: string): (r: nat)
    ensures r <= |s|
    ensures forall i :: 0 <= i < r ==> IsBlank(s[i])
    ensures r == |s| || !IsBlank(s[r])
  {
    if |s| == 0 || !IsBlank(s[0]) then 0 else 1 + IndentLength(s[1..])
  }

  /** The `c`-th tab stop, `c * w`. */
  function TabStops(c: nat, w: nat): nat
  {
    if c == 0 then 0 else TabStops(c - 1, w) + w
  }

  /** The first tab stop after column `col`, `(col // w + 1) * w`. */
  function NextTabStop(col: nat, w: nat): (r: nat)
    requires w >= 1
    ensures col < r <= col + w
    decreases col
  {
    if col < w then w else w + NextTabStop(col - w, w)
  }

  /** The column reached after the leading blanks of `s`, starting from
      column `col`: a tab moves to the next tab stop. */
  function Columns(s: string, tabWidth: nat, col: nat): nat
    requires tabWidth >= 1
  {
    if |s| == 0 || !IsBlank(s[0]) then col
    else if s[0] == ' ' then Columns(s[1..], tabWidth, col + 1)
    else Columns(s[1..], tabWidth, NextTabStop(col, tabWidth))
  }

  /** `GetLineIndentation(k)`, in columns. */
  function Indentation(d: Doc, k: nat): nat
    requires ValidDoc(d) && k < |d.lines|
  {
    Columns(d.lines[k], d.tabWidth, 0)
  }

  // ---------------------------------------------------------------------
  // The colon scan

  /** Characters the colon scan passes over: comments, and blanks or line
      ends in default style. */
  predicate Ignorable(c: char, style: int)
  {
    style == STC_P_COMMENTLINE || (style == STC_P_DEFAULT && c in " \t\r\n")
  }

  /** One step of the colon scan: an operator colon sets the flag, an
      ignorable character keeps it, anything else clears it. */
  function ColonStep(xtra: int, c: char, style: int): int
  {
    if xtra == 0 then (if style == STC_P_OPERATOR && c == ':' then 1 else 0)
    else if Ignorable(c, style) then xtra
    else 0
  }

  /** The flag after scanning the whole line. */
  function ColonXtra(cs: string, ss: seq<int>): (r: int)
    requires |cs| == |ss|
    ensures r == 0 || r == 1
    decreases |cs|
  {
    if |cs| == 0 then 0
    else ColonStep(ColonXtra(cs[..|cs| - 1], ss[..|ss| - 1]), cs[|cs| - 1], ss[|ss| - 1])
  }

  lemma {:induction false} ColonXtraIgnoresTail(cs: string, ss: seq<int>, i: nat)
    requires |cs| == |ss| && i <= |cs|
    requires forall j :: i <= j < |cs| ==> Ignorable(cs[j], ss[j])
    ensures ColonXtra(cs, ss) == ColonXtra(cs[..i], ss[..i])
    decreases |cs|
  {
    if |cs| == 0 {
    } else if i == |cs| {
      assert cs[..i] == cs && ss[..i] == ss;
      ColonXtraIgnoresTail(cs[..|cs| - 1], ss[..|ss| - 1], |cs| - 1);
    } else {
      var n := |cs| - 1;
      ColonXtraIgnoresTail(cs[..n], ss[..n], i);
      assert cs[..n][..i] == cs[..i] && ss[..n][..i] == ss[..i];
    }
  }

  /** A line of comments and blanks leaves the flag clear. */
  lemma ColonXtraAllIgnorable(cs: string, ss: seq<int>)
    requires |cs| == |ss|
    requires forall j :: 0 <= j < |cs| ==> Ignorable(cs[j], ss[j])
    ensures ColonXtra(cs, ss) == 0
  {
    ColonXtraIgnoresTail(cs, ss, 0);
  }

  /** Only the last significant character decides the flag: it is set
      exactly when that character is an operator colon the scan reached
      with the flag clear. So `for i in blah[:]:` ends with the flag set,
      and a colon followed by anything but comments and blanks ends with
      it clear. */
  lemma ColonXtraLast(cs: string, ss: seq<int>, i: nat)
    requires |cs| == |ss| && i < |cs| && !Ignorable(cs[i], ss[i])
    requires forall j :: i < j < |cs| ==> Ignorable(cs[j], ss[j])
    ensures ColonXtra(cs, ss) == 1 <==> cs[i] == ':' && ss[i] == STC_P_OPERATOR && ColonXtra(cs[..i], ss[..i]) == 0
  {
    var p, ps := cs[..i + 1], ss[..i + 1];
    ColonXtraIgnoresTail(cs, ss, i + 1);
    assert p[..i] == cs[..i] && ps[..i] == ss[..i];
    assert ColonXtra(p, ps) == ColonStep(ColonXtra(cs[..i], ss[..i]), cs[i], ss[i]);
  }

  /** The loop over the line's positions in `findIndent`. */
  method ColonScan(line: string, styles: seq<int>) returns (xtra: int)
    requires |line| == |styles|
    ensures xtra == ColonXtra(line, styles)
  {
    xtra := 0;
    var i := 0;
    while i < |line|
      invariant 0 <= i <= |line|
      invariant xtra == ColonXtra(line[..i], styles[..i])
    {
      var styl := styles[i];
      if xtra == 0 {
        if styl == STC_P_OPERATOR && line[i] == ':' {
          xtra := 1;
        }
      } else if styl == STC_P_COMMENTLINE {
      } else if styl == STC_P_DEFAULT && line[i] in " \t\r\n" {
      } else {
        xtra := 0;
      }
      assert line[..i + 1][..i] == line[..i] && styles[..i + 1][..i] == styles[..i];
      i := i + 1;
    }
    assert line[..i] == line && styles[..i] == styles;
  }

  // ---------------------------------------------------------------------
  // Looking back for the statement a colon ends

  /** The smallest index at which one of `kws` occurs in `line`, or -1. */
  function FirstFound(line: string, kws: seq<string>): (r: int)
    ensures r >= -1
    decreases |kws|
  {
    if |kws| == 0 then -1
    else
      var a := Find(line, kws[|kws| - 1]);
      var f := FirstFound(line, kws[..|kws| - 1]);
      if a > -1 && (f == -1 || a < f) then a else f
  }

  /** The answer is -1 exactly when no keyword occurs. */
  lemma {:induction false} FirstFoundNone(line: string, kws: seq<string>)
    ensures FirstFound(line, kws) == -1 <==> forall i :: 0 <= i < |kws| ==> Find(line, kws[i]) == -1
    decreases |kws|
  {
    if |kws| > 0 {
      var n := |kws| - 1;
      FirstFoundNone(line, kws[..n]);
      assert forall i :: 0 <= i < n ==> kws[..n][i] == kws[i];
    }
  }

  /** Otherwise it is where one of the keywords occurs, ... */
  lemma {:induction false} FirstFoundOccurs(line: string, kws: seq<string>)
    ensures FirstFound(line, kws) >= 0 ==> exists i :: 0 <= i < |kws| && Find(line, kws[i]) == FirstFound(line, kws)
    decreases |kws|
  {
    if |kws| > 0 {
      var n := |kws| - 1;
      var f := FirstFound(line, kws[..n]);
      if f >= 0 && FirstFound(line, kws) == f {
        FirstFoundOccurs(line, kws[..n]);
        var i :| 0 <= i < n && Find(line, kws[..n][i]) == f;
        assert kws[..n][i] == kws[i];
      } else if FirstFound(line, kws) >= 0 {
        assert Find(line, kws[n]) == FirstFound(line, kws);
      }
    }
  }

  /** ... and no keyword occurs before it. */
  lemma {:induction false} FirstFoundLeast(line: string, kws: seq<string>)
    ensures forall i :: 0 <= i < |kws| && Find(line, kws[i]) >= 0 ==> FirstFound(line, kws) <= Find(line, kws[i])
    decreases |kws|
  {
    if |kws| > 0 {
      var n := |kws| - 1;
      FirstFoundLeast(line, kws[..n]);
      FirstFoundNone(line, kws[..n]);
      assert forall i :: 0 <= i < n ==> kws[..n][i] == kws[i];
    }
  }

  /** The keyword search of `findIndent` on one line. */
  method FirstKeyword(line: string) returns (found: int)
    ensures found == FirstFound(line, BLOCK_KEYWORDS)
  {
    found := -1;
    for j := 0 to |BLOCK_KEYWORDS|
      invariant found == FirstFound(line, BLOCK_KEYWORDS[..j])
    {
      var a := Find(line, BLOCK_KEYWORDS[j]);
      assert BLOCK_KEYWORDS[..j + 1][..j] == BLOCK_KEYWORDS[..j];
      if a > -1 && (found == -1 || a < found) {
        found := a;
      }
    }
    assert BLOCK_KEYWORDS[..|BLOCK_KEYWORDS|] == BLOCK_KEYWORDS;
  }

  /** Line `k`, read as `line`, starts a block: its first keyword is styled
      as a word and begins at the line's indentation. The keyword's
      position is taken as the line's end minus the length of `line`. */
  predicate StartsBlockAs(d: Doc, k: nat, line: string)
    requires ValidDoc(d) && k < |d.lines|
  {
    var found := FirstFound(line, BLOCK_KEYWORDS);
    found > -1 && Fundamental.StyleAt(d.styles, LineEnd(d, k) - |line| + found) == STC_P_WORD && Indentation(d, k) == found
  }

  /** Line `k` starts a block, judged on its own text. */
  predicate StartsBlock(d: Doc, k: nat)
    requires ValidDoc(d) && k < |d.lines|
  {
    StartsBlockAs(d, k, d.lines[k])
  }

  /** The search as the source writes it: the first line is the current
      line's text, every earlier one is `GetLine`, separator included, so
      the style is looked up `|eol|` positions before the keyword. */
  function SearchAsWritten(d: Doc, k: int, line: string, ind: nat): nat
    requires ValidDoc(d) && k < |d.lines|
    decreases k + 1
  {
    if k < 0 then ind
    else if StartsBlockAs(d, k, line) then Indentation(d, k)
    else SearchAsWritten(d, k - 1, GetLine(d, k - 1), ind)
  }

  /** The search as intended: every line is read without its separator. */
  function Search(d: Doc, k: int, ind: nat): nat
    requires ValidDoc(d) && k < |d.lines|
    decreases k + 1
  {
    if k < 0 then ind
    else if StartsBlock(d, k) then Indentation(d, k)
    else Search(d, k - 1, ind)
  }

  /** Without a block line at or above `k` the search answers `ind`. */
  lemma {:induction false} SearchNone(d: Doc, k: int, ind: nat)
    requires ValidDoc(d) && k < |d.lines|
    requires forall j :: 0 <= j <= k ==> !StartsBlock(d, j)
    ensures Search(d, k, ind) == ind
    decreases k + 1
  {
    if k >= 0 {
      SearchNone(d, k - 1, ind);
    }
  }

  /** The search answers the indentation of the nearest line at or above
      `k` that starts a block. */
  lemma {:induction false} SearchNearest(d: Doc, k: int, ind: nat, j: nat)
    requires ValidDoc(d) && j <= k < |d.lines|
    requires StartsBlock(d, j) && forall i :: j < i <= k ==> !StartsBlock(d, i)
    ensures Search(d, k, ind) == Indentation(d, j)
    decreases k
  {
    if j < k {
      assert !StartsBlock(d, k);
      SearchNearest(d, k - 1, ind, j);
    }
  }

  /** A definition split over two lines. */
  function SplitDefinition(): (d: Doc)
    ensures ValidDoc(d)
  {
    Doc(["def f(a,", "      b):"], "\n", seq(18, i => if i < 3 then STC_P_WORD else STC_P_DEFAULT), 8, 4, false)
  }

  lemma DefFoundAtStart(line: string)
    requires |line| >= 3 && line[..3] == "def"
    ensures FirstFound(line, BLOCK_KEYWORDS) == 0
  {
    assert MatchAt(line, "def", 0);
    assert BLOCK_KEYWORDS[0] == "def";
    assert Find(line, BLOCK_KEYWORDS[0]) == 0;
    FirstFoundNone(line, BLOCK_KEYWORDS);
    FirstFoundLeast(line, BLOCK_KEYWORDS);
    FirstFoundOccurs(line, BLOCK_KEYWORDS);
  }

  /** On the second line of a definition split over two lines, the search
      as written misses the `def` line above, because it looks up the
      style one position before the `def` and finds the default style. */
  lemma SplitDefinitionMissed(ind: nat)
    ensures SearchAsWritten(SplitDefinition(), 1, SplitDefinition().lines[1], ind) == ind
  {
    var d := SplitDefinition();
    ContinuationNotBlock();
    var line0 := GetLine(d, 0);
    assert line0 == "def f(a,\n";
    assert line0[..3] == "def";
    DefFoundAtStart(line0);
    assert LineEnd(d, 0) - |line0| == -1;
    assert !StartsBlockAs(d, 0, line0);
  }

  /** The intended search finds the `def` line and answers its
      indentation, 0. */
  lemma SplitDefinitionFound(ind: nat)
    ensures Search(SplitDefinition(), 1, ind) == Indentation(SplitDefinition(), 0) == 0
  {
    var d := SplitDefinition();
    ContinuationNotBlock();
    DefLineBlock();
    assert Search(d, 1, ind) == Search(d, 0, ind);
  }

  /** The continuation line of the split definition starts no block: any
      keyword on it would be styled as default text. */
  lemma ContinuationNotBlock()
    ensures !StartsBlock(SplitDefinition(), 1)
  {
    var d := SplitDefinition();
    assert LineStart(d, 1) == 9;
    assert LineEnd(d, 1) - |d.lines[1]| == 9;
    var f := FirstFound(d.lines[1], BLOCK_KEYWORDS);
    if f > -1 {
      assert Fundamental.StyleAt(d.styles, 9 + f) != STC_P_WORD;
    }
  }

  /** The `def` line of the split definition starts a block at column 0. */
  lemma DefLineBlock()
    ensures StartsBlock(SplitDefinition(), 0) && Indentation(SplitDefinition(), 0) == 0
  {
    var d := SplitDefinition();
    assert d.lines[0][..3] == "def";
    DefFoundAtStart(d.lines[0]);
    assert Indentation(d, 0) == 0;
  }

  // ---------------------------------------------------------------------
  // The bracket stack

  /** An operator-styled bracket at 1-based offset `pos` of the line. */
  datatype Bracket = Bracket(pos: nat, ch: char)

  predicate IsOpener(c: char) { c in "([{" }

  /** The opener a closer closes. */
  function Partner(c: char): char
  {
    if c == ')' then '(' else if c == ']' then '[' else if c == '}' then '{' else ' '
  }

  predicate Ascending(bs: seq<Bracket>)
  {
    forall i, j :: 0 <= i < j < |bs| ==> bs[i].pos < bs[j].pos
  }

  /** Every bracket is an operator-styled character of the line at its
      1-based offset. */
  predicate OnLine(line: string, styles: seq<int>, bs: seq<Bracket>)
    requires |line| == |styles|
  {
    forall i :: 0 <= i < |bs| ==>
      1 <= bs[i].pos <= |line| && line[bs[i].pos - 1] == bs[i].ch && styles[bs[i].pos - 1] == STC_P_OPERATOR
  }

  /** The brackets of the line styled as operators, in order of position.
      The source finds each of the six characters separately and sorts the
      pairs; positions differ, so the sorted list is this one. */
  function Brackets(line: string, styles: seq<int>): (r: seq<Bracket>)
    requires |line| == |styles|
    ensures Ascending(r) && OnLine(line, styles, r)
    decreases |line|
  {
    if |line| == 0 then []
    else
      var n := |line| - 1;
      var front := Brackets(line[..n], styles[..n]);
      front + (if line[n] in BRACKETS && styles[n] == STC_P_OPERATOR then [Bracket(n + 1, line[n])] else [])
  }

  /** Every operator-styled bracket of the line is in the list, and
      nothing else is. */
  lemma {:induction false} BracketsExact(line: string, styles: seq<int>)
    requires |line| == |styles|
    ensures forall i :: 0 <= i < |line| && line[i] in BRACKETS && styles[i] == STC_P_OPERATOR ==> Bracket(i + 1, line[i]) in Brackets(line, styles)
    ensures forall b :: b in Brackets(line, styles) ==> b.ch in BRACKETS
    decreases |line|
  {
    if |line| > 0 {
      var n := |line| - 1;
      BracketsExact(line[..n], styles[..n]);
      forall i | 0 <= i < n
        ensures line[..n][i] == line[i] && styles[..n][i] == styles[i]
      {
      }
    }
  }

  /** The stack left after the brackets: an opener is pushed, a closer
      pops the opener it closes, and any other closer empties the stack and
      ends the scan. */
  function Nest(items: seq<Bracket>, stk: seq<Bracket>): seq<Bracket>
    decreases |items|
  {
    if |items| == 0 then stk
    else if IsOpener(items[0].ch) then Nest(items[1..], stk + [items[0]])
    else if |stk| > 0 && stk[|stk| - 1].ch == Partner(items[0].ch) then Nest(items[1..], stk[..|stk| - 1])
    else []
  }

  /** What remains holds only openers taken from the stack or the input,
      in increasing position, so its top is the opener still open that
      comes last on the line. */
  lemma {:induction false} NestSpec(items: seq<Bracket>, stk: seq<Bracket>)
    requires Ascending(stk) && Ascending(items)
    requires forall i, j :: 0 <= i < |stk| && 0 <= j < |items| ==> stk[i].pos < items[j].pos
    requires forall b :: b in stk ==> IsOpener(b.ch)
    ensures Ascending(Nest(items, stk))
    ensures forall b :: b in Nest(items, stk) ==> IsOpener(b.ch) && (b in stk || b in items)
    decreases |items|
  {
    if |items| == 0 {
    } else if IsOpener(items[0].ch) {
      NestSpec(items[1..], stk + [items[0]]);
    } else if |stk| > 0 && stk[|stk| - 1].ch == Partner(items[0].ch) {
      NestSpec(items[1..], stk[..|stk| - 1]);
    }
  }

  /** A closer that does not close the top of the stack empties it; the
      one that does leaves the stack as it was before that opener. */
  lemma NestCloser(before: seq<Bracket>, top: Bracket, closer: Bracket, rest: seq<Bracket>)
    requires !IsOpener(closer.ch)
    ensures top.ch != Partner(closer.ch) ==> Nest([closer] + rest, before + [top]) == []
    ensures top.ch == Partner(closer.ch) ==> Nest([closer] + rest, before + [top]) == Nest(rest, before)
    ensures Nest([closer] + rest, []) == []
  {
    assert ([closer] + rest)[1..] == rest;
    assert (before + [top])[..|before|] == before;
  }

  /** The loop that collects the brackets. */
  method BracketList(line: string, styles: seq<int>) returns (items: seq<Bracket>)
    requires |line| == |styles|
    ensures items == Brackets(line, styles)
  {
    items := [];
    var i := 0;
    while i < |line|
      invariant 0 <= i <= |line|
      invariant items == Brackets(line[..i], styles[..i])
    {
      assert line[..i + 1][..i] == line[..i] && styles[..i + 1][..i] == styles[..i];
      if line[i] in BRACKETS && styles[i] == STC_P_OPERATOR {
        items := items + [Bracket(i + 1, line[i])];
      }
      i := i + 1;
    }
    assert line[..i] == line && styles[..i] == styles;
  }

  /** The loop over the brackets with its stack. */
  method RunStack(items: seq<Bracket>) returns (stk: seq<Bracket>)
    ensures stk == Nest(items, [])
  {
    stk := [];
    var i := 0;
    while i < |items|
      invariant 0 <= i <= |items|
      invariant Nest(items[i..], stk) == Nest(items, [])
    {
      var b := items[i];
      assert items[i..][1..] == items[i + 1..];
      if IsOpener(b.ch) {
        stk := stk + [b];
      } else if |stk| > 0 {
        if Partner(b.ch) == stk[|stk| - 1].ch {
          stk := stk[..|stk| - 1];
        } else {
          stk := [];
          break;
        }
      } else {
        stk := [];
        break;
      }
      i := i + 1;
    }
  }

  // ---------------------------------------------------------------------
  // findIndent

  /** A line, stripped, that ends its block. */
  predicate EndsBlock(ls: string)
  {
    "return" <= ls || "pass" <= ls || "break" <= ls || "continue" <= ls
  }

  predicate HasBracketChar(line: string)
  {
    exists i :: 0 <= i < |line| && line[i] in BRACKETS
  }

  /** The flag of the colon scan, 0 when the line has no colon. */
  function LineXtra(d: Doc, k: nat): (r: int)
    requires k < |d.lines|
    ensures r == 0 || r == 1
  {
    if Find(d.lines[k], ":") > -1 then ColonXtra(d.lines[k], LineStyles(d, k)) else 0
  }

  /** The stack the bracket scan leaves on line `k`. */
  function LineStack(d: Doc, k: nat): seq<Bracket>
    requires k < |d.lines|
  {
    if HasBracketChar(d.lines[k]) then Nest(Brackets(d.lines[k], LineStyles(d, k)), []) else []
  }

  /** The indentation before the final adjustment: the block line's after a
      block-opening colon, the offset just past the last unclosed bracket,
      or the line's own. */
  function BaseIndent(d: Doc, k: nat): nat
    requires ValidDoc(d) && k < |d.lines|
  {
    var ind := Indentation(d, k);
    if LineXtra(d, k) != 0 then Search(d, k, ind)
    else if LineStack(d, k) != [] then LineStack(d, k)[|LineStack(d, k)| - 1].pos
    else ind
  }

  /** `max(ind + xtra * indent, 0)` */
  function Adjust(ind: nat, xtra: int, indent: nat): (r: int)
    ensures r >= 0
  {
    if ind + xtra * indent > 0 then ind + xtra * indent else 0
  }

  /** The indentation `findIndent` proposes for the line after line `k`,
      with the corrected upward search `Search` in place of the one as
      written (`SearchAsWritten`); never negative. */
  function FindIndentSpec(d: Doc, k: nat): (r: int)
    requires ValidDoc(d) && k < |d.lines|
    ensures r >= 0
  {
    var xtra := if LineXtra(d, k) == 0 && EndsBlock(LStrip(d.lines[k])) then -1 else LineXtra(d, k);
    Adjust(BaseIndent(d, k), xtra, d.indentWidth)
  }

  lemma FindIndentSpecIs(d: Doc, k: nat, base: nat, xtra: int)
    requires ValidDoc(d) && k < |d.lines| && base == BaseIndent(d, k)
    requires xtra == if LineXtra(d, k) == 0 && EndsBlock(LStrip(d.lines[k])) then -1 else LineXtra(d, k)
    ensures FindIndentSpec(d, k) == Adjust(base, xtra, d.indentWidth)
  { }

  /** One step in after a block-opening colon, from the indentation of the
      nearest block line that the corrected search finds. */
  lemma FindIndentOpens(d: Doc, k: nat)
    requires ValidDoc(d) && k < |d.lines| && LineXtra(d, k) != 0
    ensures FindIndentSpec(d, k) == Search(d, k, Indentation(d, k)) + d.indentWidth
  {
    var b := BaseIndent(d, k);
    assert b == Search(d, k, Indentation(d, k));
    assert LineXtra(d, k) == 1;
    assert FindIndentSpec(d, k) == Adjust(b, 1, d.indentWidth);
  }

  /** One step out, down to 0, after return/pass/break/continue. */
  lemma FindIndentCloses(d: Doc, k: nat)
    requires ValidDoc(d) && k < |d.lines|
    requires LineXtra(d, k) == 0 && EndsBlock(LStrip(d.lines[k]))
    ensures FindIndentSpec(d, k) == if BaseIndent(d, k) >= d.indentWidth then BaseIndent(d, k) - d.indentWidth else 0
  {
    var b := BaseIndent(d, k);
    var w := d.indentWidth;
    assert FindIndentSpec(d, k) == Adjust(b, -1, w);
    NegativeStep(-1, w);
  }

  /** Otherwise the base indentation. */
  lemma FindIndentKeeps(d: Doc, k: nat)
    requires ValidDoc(d) && k < |d.lines|
    requires LineXtra(d, k) == 0 && !EndsBlock(LStrip(d.lines[k]))
    ensures FindIndentSpec(d, k) == BaseIndent(d, k)
  {
    assert FindIndentSpec(d, k) == Adjust(BaseIndent(d, k), 0, d.indentWidth);
  }

  lemma NegativeStep(xtra: int, w: int)
    requires xtra == -1
    ensures xtra * w == -w
  {
  }

  /** A stack left over from brackets in increasing position has an opener
      on top, and that opener comes last on the line among those left. */
  lemma StackTop(items: seq<Bracket>, stk: seq<Bracket>)
    requires Ascending(items) && stk == Nest(items, []) && stk != []
    ensures IsOpener(stk[|stk| - 1].ch) && stk[|stk| - 1] in items
    ensures forall i :: 0 <= i < |stk| ==> stk[i].pos <= stk[|stk| - 1].pos
  {
    NestSpec(items, []);
    assert stk[|stk| - 1] in stk;
  }

  /** The top of a non-empty stack is an operator-styled opener of the line
      at the highest position on the stack. */
  predicate OpenTop(line: string, styles: seq<int>, stk: seq<Bracket>)
    requires |line| == |styles| && stk != []
  {
    var top := stk[|stk| - 1];
    IsOpener(top.ch) && 1 <= top.pos <= |line| && line[top.pos - 1] == top.ch &&
    styles[top.pos - 1] == STC_P_OPERATOR && forall i :: 0 <= i < |stk| ==> stk[i].pos <= top.pos
  }

  /** The stack the bracket scan leaves on a line, when not empty, has such
      a top. */
  lemma LineStackTop(line: string, styles: seq<int>, items: seq<Bracket>, stk: seq<Bracket>)
    requires |line| == |styles| && items == Brackets(line, styles)
    requires stk == Nest(items, []) && stk != []
    ensures OpenTop(line, styles, stk)
  {
    StackTop(items, stk);
    TopOnLine(line, styles, items, stk);
  }

  /** A stack whose top is an opener taken from an ascending list of the
      line's operator-styled characters, and is highest on the stack, has
      such a top. */
  lemma TopOnLine(line: string, styles: seq<int>, items: seq<Bracket>, stk: seq<Bracket>)
    requires |line| == |styles| && stk != [] && OnLine(line, styles, items)
    requires IsOpener(stk[|stk| - 1].ch) && stk[|stk| - 1] in items
    requires forall i :: 0 <= i < |stk| ==> stk[i].pos <= stk[|stk| - 1].pos
    ensures OpenTop(line, styles, stk)
  {
    var j :| 0 <= j < |items| && items[j] == stk[|stk| - 1];
  }

  /** Without a block-opening colon, an unclosed bracket sets the base
      indentation to the 1-based offset just past the last opener still
      open, which is an operator-styled opener of the line. */
  lemma BracketIndent(d: Doc, k: nat)
    requires ValidDoc(d) && k < |d.lines|
    requires LineXtra(d, k) == 0 && LineStack(d, k) != []
    ensures var stk := LineStack(d, k);
            BaseIndent(d, k) == stk[|stk| - 1].pos && OpenTop(d.lines[k], LineStyles(d, k), stk)
  {
    var line, ss := d.lines[k], LineStyles(d, k);
    assert HasBracketChar(line);
    var items := Brackets(line, ss);
    assert LineStack(d, k) == Nest(items, []);
    LineStackTop(line, ss, items, LineStack(d, k));
  }

  // ---------------------------------------------------------------------
  // reindent

  /** The fold level as the source computes it: `&` binds looser than `-`,
      so the level is masked with `NUMBERMASK - BASE`. */
  function FoldAsWritten(level: bv32): int
  {
    (level & (STC_FOLDLEVELNUMBERMASK - STC_FOLDLEVELBASE)) as int
  }

  /** For every fold depth below 1024 the masked level is the depth, the
      level's number part minus the base, as the code evidently means. */
  lemma FoldPrecedence(level: bv32)
    requires STC_FOLDLEVELBASE <= level & STC_FOLDLEVELNUMBERMASK < STC_FOLDLEVELBASE + 0x400
    ensures FoldAsWritten(level) == ((level & STC_FOLDLEVELNUMBERMASK) - STC_FOLDLEVELBASE) as int
  {
  }

  /** `else`, `elif`, `except` and `finally` lines are dedented. */
  predicate DedentKeyword(rest: string)
  {
    "else" <= rest || "elif" <= rest || "except" <= rest || "finally" <= rest
  }

  /** The line is a dedent keyword, styled as a word, after a line with
      the same indentation. */
  predicate Dedents(d: Doc, k: nat)
    requires ValidDoc(d) && k < |d.lines|
  {
    var indlen := IndentLength(d.lines[k]);
    k > 0 && Fundamental.StyleAt(d.styles, LineStart(d, k) + indlen) == STC_P_WORD &&
    DedentKeyword(d.lines[k][indlen..]) && Indentation(d, k - 1) == Indentation(d, k)
  }

  /** The columns `reindent` indents line `k` to. */
  function ReindentFold(d: Doc, k: nat, level: bv32): int
    requires ValidDoc(d) && k < |d.lines|
  {
    FoldAsWritten(level) - (if Dedents(d, k) then 4 else 0)
  }

  /** The indentation text for `fold` columns: spaces, each run of a tab
      width of them turned into a tab when tabs are used. */
  function IndentText(fold: int, useTabs: bool, tabWidth: nat): string
  {
    var a := Repeat(' ', fold);
    if useTabs then Replace(a, Repeat(' ', tabWidth), "\t") else a
  }

  /** Line `k` after `reindent`. */
  function ReindentedLine(d: Doc, k: nat, level: bv32): string
    requires ValidDoc(d) && k < |d.lines|
  {
    IndentText(ReindentFold(d, k, level), d.useTabs, d.tabWidth) + d.lines[k][IndentLength(d.lines[k])..]
  }

  /** `n // w` */
  function Quot(n: nat, w: nat): nat
    requires w >= 1
    decreases n
  {
    if n < w then 0 else 1 + Quot(n - w, w)
  }

  /** `n % w` */
  function Rem(n: nat, w: nat): (r: nat)
    requires w >= 1
    ensures r < w
    decreases n
  {
    if n < w then n else Rem(n - w, w)
  }

  /** Quotient and remainder put `n` back together. */
  lemma {:induction false} QuotRemSum(n: nat, w: nat)
    requires w >= 1
    ensures TabStops(Quot(n, w), w) + Rem(n, w) == n
    decreases n
  {
    if n >= w {
      QuotRemSum(n - w, w);
    }
  }

  /** Replacing runs of `w` spaces by tabs leaves `n // w` tabs followed by
      `n % w` spaces. */
  lemma {:induction false} TabbedIndent(n: nat, w: nat)
    requires w >= 1
    ensures Replace(Repeat(' ', n), Repeat(' ', w), "\t") == Repeat('\t', Quot(n, w)) + Repeat(' ', Rem(n, w))
    decreases n
  {
    if n >= w {
      var tabs, spaces := Repeat('\t', Quot(n - w, w)), Repeat(' ', Rem(n - w, w));
      assert Quot(n, w) == 1 + Quot(n - w, w) && Rem(n, w) == Rem(n - w, w);
      calc {
        Replace(Repeat(' ', n), Repeat(' ', w), "\t");
        { ReplaceRunStep(n, w); }
        "\t" + Replace(Repeat(' ', n - w), Repeat(' ', w), "\t");
        { TabbedIndent(n - w, w); }
        "\t" + (tabs + spaces);
        { AppendAssoc("\t", tabs, spaces); }
        ("\t" + tabs) + spaces;
        { assert Repeat('\t', 1 + Quot(n - w, w)) == "\t" + tabs; }
        Repeat('\t', Quot(n, w)) + Repeat(' ', Rem(n, w));
      }
    } else {
      ReplaceShortRun(n, w);
      assert Repeat('\t', Quot(n, w)) == [];
      assert Repeat('\t', Quot(n, w)) + Repeat(' ', Rem(n, w)) == Repeat(' ', n);
    }
  }

  /** A run of at least `w` spaces starts with one tab's worth. */
  lemma ReplaceRunStep(n: nat, w: nat)
    requires 1 <= w <= n
    ensures Replace(Repeat(' ', n), Repeat(' ', w), "\t") == "\t" + Replace(Repeat(' ', n - w), Repeat(' ', w), "\t")
  {
    var s := Repeat(' ', n);
    assert s[..w] == Repeat(' ', w);
    assert s[w..] == Repeat(' ', n - w);
  }

  /** A run shorter than `w` spaces is left alone. */
  lemma ReplaceShortRun(n: nat, w: nat)
    requires n < w
    ensures Replace(Repeat(' ', n), Repeat(' ', w), "\t") == Repeat(' ', n)
  { }

  lemma {:induction false} NextStopOfStop(c: nat, w: nat)
    requires w >= 1
    ensures NextTabStop(TabStops(c, w), w) == TabStops(c + 1, w)
    decreases c
  {
    if c > 0 {
      NextStopOfStop(c - 1, w);
    }
  }

  lemma {:induction false} ColumnsSpaces(r: nat, rest: string, w: nat, col: nat)
    requires w >= 1 && (rest == [] || !IsBlank(rest[0]))
    ensures Columns(Repeat(' ', r) + rest, w, col) == col + r
    decreases r
  {
    if r > 0 {
      assert (Repeat(' ', r) + rest)[1..] == Repeat(' ', r - 1) + rest;
      ColumnsSpaces(r - 1, rest, w, col + 1);
    } else {
      assert Repeat(' ', r) + rest == rest;
    }
  }

  lemma {:induction false} ColumnsTabs(q: nat, x: string, w: nat, c: nat)
    requires w >= 1
    ensures Columns(Repeat('\t', q) + x, w, TabStops(c, w)) == Columns(x, w, TabStops(c + q, w))
    decreases q
  {
    if q > 0 {
      assert (Repeat('\t', q) + x)[1..] == Repeat('\t', q - 1) + x;
      NextStopOfStop(c, w);
      ColumnsTabs(q - 1, x, w, c + 1);
    } else {
      assert Repeat('\t', q) + x == x;
    }
  }

  lemma {:induction false} MulAtLeast(a: int, w: int)
    requires a >= 1 && w >= 1
    ensures a * w >= w
    decreases a
  {
    if a > 1 {
      MulAtLeast(a - 1, w);
      assert a * w == (a - 1) * w + w;
    }
  }

  /** Euclidean division has one quotient and one remainder. */
  lemma DivUnique(n: int, w: int, q: int, r: int)
    requires w >= 1 && n == q * w + r && 0 <= r < w
    ensures n / w == q && n % w == r
  {
    var q', r' := n / w, n % w;
    assert n == q' * w + r';
    if q' > q {
      assert (q' - q) * w == r - r';
      MulAtLeast(q' - q, w);
    } else if q' < q {
      assert (q - q') * w == r' - r;
      MulAtLeast(q - q', w);
    }
  }

  lemma {:induction false} TabStopsMul(c: nat, w: nat)
    ensures TabStops(c, w) == c * w
    decreases c
  {
    if c > 0 {
      TabStopsMul(c - 1, w);
      assert c * w == (c - 1) * w + w;
    }
  }

  /** `Quot` and `Rem` are Python's `//` and `%`, and the next tab stop is
      `(col // w + 1) * w`. */
  lemma QuotRemDiv(n: nat, w: nat)
    requires w >= 1
    ensures Quot(n, w) == n / w && Rem(n, w) == n % w
    ensures NextTabStop(n, w) == (n / w + 1) * w
  {
    QuotRemSum(n, w);
    TabStopsMul(Quot(n, w), w);
    DivUnique(n, w, Quot(n, w), Rem(n, w));
    NextStopAfter(n, w);
    TabStopsMul(Quot(n, w) + 1, w);
  }

  lemma {:induction false} NextStopAfter(n: nat, w: nat)
    requires w >= 1
    ensures NextTabStop(n, w) == TabStops(Quot(n, w) + 1, w)
    decreases n
  {
    if n >= w {
      NextStopAfter(n - w, w);
    }
  }

  /** The new indentation is blank and fills exactly `fold` columns (none
      for a negative fold). */
  lemma IndentTextSpec(fold: int, useTabs: bool, w: nat, rest: string)
    requires w >= 1 && (rest == [] || !IsBlank(rest[0]))
    ensures forall i :: 0 <= i < |IndentText(fold, useTabs, w)| ==> IsBlank(IndentText(fold, useTabs, w)[i])
    ensures Columns(IndentText(fold, useTabs, w) + rest, w, 0) == if fold < 0 then 0 else fold
  {
    var n := if fold < 0 then 0 else fold;
    assert Repeat(' ', fold) == Repeat(' ', n);
    if useTabs {
      TabbedIndent(n, w);
      TabsThenSpaces(n, w, rest);
    } else {
      ColumnsSpaces(n, rest, w, 0);
    }
  }

  lemma TabsThenSpaces(n: nat, w: nat, rest: string)
    requires w >= 1 && (rest == [] || !IsBlank(rest[0]))
    ensures var t := Repeat('\t', Quot(n, w)) + Repeat(' ', Rem(n, w));
            (forall i :: 0 <= i < |t| ==> IsBlank(t[i])) && Columns(t + rest, w, 0) == n
  {
    var tabs, spaces := Repeat('\t', Quot(n, w)), Repeat(' ', Rem(n, w));
    assert (tabs + spaces) + rest == tabs + (spaces + rest);
    ColumnsTabs(Quot(n, w), spaces + rest, w, 0);
    ColumnsSpaces(Rem(n, w), rest, w, TabStops(Quot(n, w), w));
    QuotRemSum(n, w);
  }

  /** For a realistic fold level, `reindent` aims at the fold depth, one
      level (4 columns) less for an else/elif/except/finally line at the
      indentation of the line above. */
  lemma ReindentDepth(d: Doc, k: nat, level: bv32)
    requires ValidDoc(d) && k < |d.lines|
    requires STC_FOLDLEVELBASE <= level & STC_FOLDLEVELNUMBERMASK < STC_FOLDLEVELBASE + 0x400
    ensures ReindentFold(d, k, level) == ((level & STC_FOLDLEVELNUMBERMASK) - STC_FOLDLEVELBASE) as int - (if Dedents(d, k) then 4 else 0)
  {
    FoldPrecedence(level);
  }

  /** After `reindent` the line is indented to the columns `ReindentFold`
      gives, never below 0, and the text after the indentation is what it
      was. */
  lemma ReindentedLineSpec(d: Doc, k: nat, level: bv32)
    requires ValidDoc(d) && k < |d.lines|
    ensures var fold := ReindentFold(d, k, level);
            Columns(ReindentedLine(d, k, level), d.tabWidth, 0) == if fold < 0 then 0 else fold
    ensures var line := ReindentedLine(d, k, level);
            line[IndentLength(line)..] == d.lines[k][IndentLength(d.lines[k])..]
  {
    IndentReplaced(d.lines[k], ReindentFold(d, k, level), d.useTabs, d.tabWidth);
  }

  /** A line whose indentation is replaced by the indentation text for
      `fold` columns is indented to `fold` columns and keeps its text. */
  lemma IndentReplaced(line: string, fold: int, useTabs: bool, w: nat)
    requires w >= 1
    ensures var r := IndentText(fold, useTabs, w) + line[IndentLength(line)..];
            Columns(r, w, 0) == (if fold < 0 then 0 else fold) && r[IndentLength(r)..] == line[IndentLength(line)..]
  {
    var rest := line[IndentLength(line)..];
    var a := IndentText(fold, useTabs, w);
    IndentTextSpec(fold, useTabs, w, rest);
    IndentLengthOf(a, rest);
  }

  lemma {:induction false} IndentLengthOf(a: string, rest: string)
    requires forall i :: 0 <= i < |a| ==> IsBlank(a[i])
    requires rest == [] || !IsBlank(rest[0])
    ensures IndentLength(a + rest) == |a|
    decreases |a|
  {
    if |a| == 0 {
      assert a + rest == rest;
    } else {
      assert (a + rest)[1..] == a[1..] + rest;
      IndentLengthOf(a[1..], rest);
    }
  }

  // ---------------------------------------------------------------------
  // The control

  /** The document of a Python-mode `PeppySTC`. */
  class PythonStc {
    var doc: Doc

    constructor(doc: Doc)
      requires ValidDoc(doc)
      ensures this.doc == doc
    {
      this.doc := doc;
    }

    /** `PythonElectricReturnMixin.findIndent(linenum)`, with the corrected
        upward search: earlier lines are read without their separator. */
    method FindIndent(linenum: nat) returns (r: int)
      requires ValidDoc(doc) && linenum < |doc.lines|
      ensures r == FindIndentSpec(doc, linenum)
    {
      var d := doc;
      var line := d.lines[linenum];
      var ind := Indentation(d, linenum);
      var xtra := LineFlag(d, linenum);
      if xtra != 0 {
        ind := SearchBack(d, linenum, ind);
      } else {
        ind := BracketIndentOf(d, linenum, ind);
      }
      assert ind == BaseIndent(d, linenum);
      if xtra == 0 {
        var ls := LStrip(line);
        if "return" <= ls || "pass" <= ls || "break" <= ls || "continue" <= ls {
          xtra := -1;
        }
      }
      FindIndentSpecIs(d, linenum, ind, xtra);
      r := Adjust(ind, xtra, d.indentWidth);
    }

    /** `PythonReindentMixin.reindent(linenum)`, with the control's fold
        level for the line as `level`. */
    method Reindent(linenum: nat, level: bv32)
      requires ValidDoc(doc) && linenum < |doc.lines|
      modifies this
      ensures ValidDoc(doc)
      ensures doc == old(doc).(lines := old(doc).lines[linenum := ReindentedLine(old(doc), linenum, level)])
    {
      var d := doc;
      var line := d.lines[linenum];
      var rest := line[IndentLength(line)..];
      var fold := FoldFor(d, linenum, level);
      var a := Repeat(' ', fold);
      if d.useTabs {
        a := Replace(a, Repeat(' ', d.tabWidth), "\t");
      }
      assert a + rest == ReindentedLine(d, linenum, level);
      doc := d.(lines := d.lines[linenum := a + rest]);
    }
  }

  /** The columns `reindent` computes: the masked fold level, less 4 for a
      dedent keyword styled as a word after a line at the same
      indentation. */
  method FoldFor(d: Doc, linenum: nat, level: bv32) returns (fold: int)
    requires ValidDoc(d) && linenum < |d.lines|
    ensures fold == ReindentFold(d, linenum, level)
  {
    var line := d.lines[linenum];
    var indlen := IndentLength(line);
    fold := FoldAsWritten(level);
    var rest := line[indlen..];
    var style := Fundamental.StyleAt(d.styles, LineStart(d, linenum) + indlen);
    if linenum > 0 && style == STC_P_WORD && ("else" <= rest || "elif" <= rest || "except" <= rest || "finally" <= rest) {
      if Indentation(d, linenum - 1) == Indentation(d, linenum) {
        fold := fold - 4;
      }
    }
  }

  /** The colon scan of `findIndent`, run when the line has a colon. */
  method LineFlag(d: Doc, k: nat) returns (xtra: int)
    requires k < |d.lines|
    ensures xtra == LineXtra(d, k)
  {
    xtra := 0;
    var line := d.lines[k];
    if Find(line, ":") > -1 {
      xtra := ColonScan(line, LineStyles(d, k));
    }
  }

  /** The bracket scan of `findIndent`, run without a block-opening colon:
      `ind` becomes the offset just past the top of the stack left over. */
  method BracketIndentOf(d: Doc, k: nat, ind0: nat) returns (ind: nat)
    requires k < |d.lines|
    ensures ind == if LineStack(d, k) != [] then LineStack(d, k)[|LineStack(d, k)| - 1].pos else ind0
  {
    ind := ind0;
    var line := d.lines[k];
    if HasBracketChar(line) {
      var items := BracketList(line, LineStyles(d, k));
      var stk := RunStack(items);
      if |stk| > 0 {
        ind := stk[|stk| - 1].pos;
      }
    }
  }

  /** The test in the search loop: the first keyword of `line`, read as
      line `k`, is styled as a word and begins at the line's indentation. */
  method IsBlockLine(d: Doc, k: nat, line: string) returns (starts: bool)
    requires ValidDoc(d) && k < |d.lines|
    ensures starts == StartsBlockAs(d, k, line)
  {
    var found := FirstKeyword(line);
    starts := found > -1 && Fundamental.StyleAt(d.styles, LineEnd(d, k) - |line| + found) == STC_P_WORD && Indentation(d, k) == found;
  }

  /** The `while linenum >= 0` loop of `findIndent`, reading each line
      without its separator. */
  method SearchBack(d: Doc, linenum: nat, ind0: nat) returns (ind: nat)
    requires ValidDoc(d) && linenum < |d.lines|
    ensures ind == Search(d, linenum, ind0)
  {
    ind := ind0;
    var k: int := linenum;
    var line := d.lines[linenum];
    while k >= 0
      invariant -1 <= k < |d.lines|
      invariant k >= 0 ==> line == d.lines[k]
      invariant ind == ind0
      invariant Search(d, k, ind0) == Search(d, linenum, ind0)
      decreases k + 1
    {
      var starts := IsBlockLine(d, k, line);
      if starts {
        assert Search(d, k, ind0) == Indentation(d, k);
        ind := Indentation(d, k);
        return;
      }
      assert Search(d, k, ind0) == Search(d, k - 1, ind0);
      k := k - 1;
      if k >= 0 {
        line := d.lines[k];
      }
    }
    assert Search(d, k, ind0) == ind0;
  }
}
