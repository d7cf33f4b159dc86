/** Preference parameters (peppy/lib/userparams.py): the conversions between
    the text of a configuration file and the values the program uses, the
    class-wide preference store `GlobalPrefs` with its `PrefsProxy` view, and
    the way the preference panel groups parameters. */
module UserParams {
  import opened Base
  import opened Strings

  // ---------------------------------------------------------------------
  // Plain strings
  // ---------------------------------------------------------------------

  predicate IsQuote(c: char) { c == '\'' || c == '"' }

  /** `Param.textToValue`: at most one leading and at most one trailing
      quotation mark removed. */
  function Unquote(text: string): (r: string)
    ensures r <= text || (|text| > 0 && r <= text[1..])
    ensures |text| <= |r| + 2
    ensures (|text| == 0 || (!IsQuote(text[0]) && !IsQuote(text[|text| - 1]))) ==> r == text
  {
    var t := if |text| > 0 && IsQuote(text[0]) then text[1..] else text;
    if |t| > 0 && IsQuote(t[|t| - 1]) then t[..|t| - 1] else t
  }

  /** `Param.valueToText` of a string: the string in double quotes. */
  function Quote(s: string): (r: string)
    ensures |r| == |s| + 2
  {
    "\"" + s + "\""
  }

  /** Every string survives being written and read back. */
  lemma UnquoteQuote(s: string)
    ensures Unquote(Quote(s)) == s
  {
    var q := Quote(s);
    assert q[1..] == s + "\"";
    assert (s + "\"")[..|s|] == s;
  }

  /** A string without quotation marks at its ends reads back unchanged. */
  predicate Unquoted(s: string)
  {
    |s| == 0 || (!IsQuote(s[0]) && !IsQuote(s[|s| - 1]))
  }

  // ---------------------------------------------------------------------
  // Booleans
  // ---------------------------------------------------------------------

  const YesValues: seq<string> := ["yes", "true", "1"]
  const NoValues: seq<string> := ["no", "false", "0"]

  /** `BoolParam.textToValue` */
  function TextToBool(text: string): bool
  {
    Lower(Unquote(text)) in YesValues
  }

  /** `BoolParam.valueToText` */
  function BoolToText(b: bool): (r: string)
    ensures Unquoted(r) && Lower(r) == r
  {
    var r := if b then YesValues[0] else NoValues[0];
    assert Lower(r) == r;
    r
  }

  /** A boolean survives being written and read back, quoted or not. */
  lemma BoolRoundTrip(b: bool)
    ensures TextToBool(BoolToText(b)) == b
    ensures TextToBool(Quote(BoolToText(b))) == b
  {
    UnquoteQuote(BoolToText(b));
    if !b {
      assert Lower(BoolToText(b)) == "no";
      assert "no" != YesValues[0] && "no" != YesValues[1] && "no" != YesValues[2];
    }
  }

  /** Case does not matter: every upper-case spelling reads the same. */
  lemma TextToBoolIgnoresCase(text: string)
    ensures TextToBool(Upper(text)) == TextToBool(text)
  {
    UnquoteUpper(text);
    LowerUpper(Unquote(text));
  }

  /** Quotation marks are not letters: upper-casing commutes with `Unquote`. */
  lemma UnquoteUpper(text: string)
    ensures Unquote(Upper(text)) == Upper(Unquote(text))
  {
    var u := Upper(text);
    if |text| > 0 {
      assert IsQuote(u[0]) <==> IsQuote(text[0]);
      assert IsQuote(u[|u| - 1]) <==> IsQuote(text[|text| - 1]);
    }
    var t := if |text| > 0 && IsQuote(text[0]) then text[1..] else text;
    var tu := if |u| > 0 && IsQuote(u[0]) then u[1..] else u;
    assert tu == Upper(t);
    if |t| > 0 {
      assert IsQuote(tu[|tu| - 1]) <==> IsQuote(t[|t| - 1]);
    }
  }

  /** Lower-casing forgets an earlier upper-casing. */
  lemma LowerUpper(s: string)
    ensures Lower(Upper(s)) == Lower(s)
  {
    assert forall i :: 0 <= i < |s| ==> Lower(Upper(s))[i] == Lower(s)[i];
  }

  // ---------------------------------------------------------------------
  // Comma-separated lists and sets
  // ---------------------------------------------------------------------

  /** Every piece stripped. */
  function StripAll(pieces: seq<string>): (r: seq<string>)
    ensures |r| == |pieces|
    ensures forall i :: 0 <= i < |r| ==> r[i] == Strip(pieces[i])
  {
    seq(|pieces|, i requires 0 <= i < |pieces| => Strip(pieces[i]))
  }

  /** `CommaSeparatedListParam.getListValues` */
  function ListValues(text: string): (r: seq<string>)
    ensures |r| >= 1
    ensures forall i :: 0 <= i < |r| ==> ',' !in r[i] && Trimmed(r[i])
  {
    var t := Strip(text);
    var raw := if ',' in t then Split(t, ',') else [t];
    StripAllPlain(raw);
    StripAll(raw)
  }

  /** Stripping pieces without a comma gives trimmed pieces without one. */
  lemma StripAllPlain(raw: seq<string>)
    requires forall i :: 0 <= i < |raw| ==> ',' !in raw[i]
    ensures forall i :: 0 <= i < |raw| ==> ',' !in StripAll(raw)[i] && Trimmed(StripAll(raw)[i])
  {
    var r := StripAll(raw);
    forall i | 0 <= i < |r|
      ensures ',' !in r[i] && Trimmed(r[i])
    {
      StripSub(raw[i]);
    }
  }

  /** `CommaSeparatedListParam.valueToText` */
  function ListText(values: seq<string>): string
  {
    Join(values, ", ")
  }

  /** An item the list text can carry: trimmed, non-empty, without a comma. */
  predicate ListItem(s: string)
  {
    |s| > 0 && Trimmed(s) && ',' !in s
  }

  /** A non-empty list of plain items survives being written and read back. */
  lemma {:induction false} ListRoundTrip(values: seq<string>)
    requires |values| >= 1
    requires forall i :: 0 <= i < |values| ==> ListItem(values[i])
    ensures ListValues(ListText(values)) == values
  {
    var j := ListText(values);
    JoinEnds(values);
    StripTrimmed(j);
    if |values| == 1 {
      StripTrimmed(values[0]);
      assert j == values[0];
    } else {
      CommaSplit(values);
    }
  }

  /** With two or more items the text holds a comma, and stripping its
      comma-separated pieces gives the items back. */
  lemma {:induction false} CommaSplit(values: seq<string>)
    requires |values| >= 2
    requires forall i :: 0 <= i < |values| ==> ListItem(values[i])
    ensures ',' in ListText(values)
    ensures StripAll(Split(ListText(values), ',')) == values
  {
    var j := ListText(values);
    var pieces := CommaPieces(values);
    assert j[|values[0]|] == ',';
    SplitJoin(pieces, ',');
    assert Split(j, ',') == pieces;
    forall i | 0 <= i < |values|
      ensures Strip(pieces[i]) == values[i]
    {
      if i == 0 {
        StripTrimmed(values[0]);
      } else {
        StripSpaced(values[i]);
      }
    }
  }

  /** The list text as comma-separated pieces: the first item, then every
      other item behind a space. */
  lemma {:induction false} CommaPieces(values: seq<string>) returns (pieces: seq<string>)
    requires |values| >= 2
    requires forall i :: 0 <= i < |values| ==> ListItem(values[i])
    ensures |pieces| == |values| && pieces[0] == values[0]
    ensures forall i :: 1 <= i < |values| ==> pieces[i] == " " + values[i]
    ensures forall i :: 0 <= i < |pieces| ==> ',' !in pieces[i]
    ensures ListText(values) == Join(pieces, [','])
  {
    var tail := SpacedTail(values[1..]);
    pieces := [values[0]] + tail;
    SpacedJoin(values[1..]);
    assert pieces[1..] == tail;
    assert ListText(values) == values[0] + [','] + (" " + ListText(values[1..]));
    forall i | 1 <= i < |pieces|
      ensures ',' !in pieces[i]
    {
      assert pieces[i] == " " + values[i];
      assert ListItem(values[i]);
    }
  }

  /** Every item with a space in front. */
  function SpacedTail(values: seq<string>): (r: seq<string>)
    ensures |r| == |values|
    ensures forall i :: 0 <= i < |r| ==> r[i] == " " + values[i]
  {
    seq(|values|, i requires 0 <= i < |values| => " " + values[i])
  }

  lemma {:induction false} SpacedJoin(values: seq<string>)
    requires |values| >= 1
    ensures " " + Join(values, ", ") == Join(SpacedTail(values), [','])
  {
    if |values| > 1 {
      SpacedJoin(values[1..]);
      assert SpacedTail(values)[1..] == SpacedTail(values[1..]);
      assert " " + Join(values, ", ") == (" " + values[0]) + [','] + (" " + Join(values[1..], ", "));
    }
  }

  /** The joined text of plain items is non-empty and trimmed. */
  lemma {:induction false} JoinEnds(values: seq<string>)
    requires |values| >= 1
    requires forall i :: 0 <= i < |values| ==> ListItem(values[i])
    ensures |Join(values, ", ")| > 0 && Trimmed(Join(values, ", "))
  {
    if |values| > 1 {
      JoinEnds(values[1..]);
      var rest := Join(values[1..], ", ");
      assert Join(values, ", ") == values[0] + ", " + rest;
    }
  }

  /** Stripping never introduces a character. */
  lemma StripSub(s: string)
    ensures forall c :: c in Strip(s) ==> c in s
  {
    var l := LStrip(s);
    var r := RStrip(l);
    forall c | c in r
      ensures c in s
    {
      var i :| 0 <= i < |r| && r[i] == c;
      assert l[i] == c;
      assert s[|s| - |l| + i] == c;
    }
  }

  lemma StripSpaced(v: string)
    requires |v| > 0 && Trimmed(v)
    ensures Strip(" " + v) == v
  {
    assert (" " + v)[1..] == v;
    assert LStrip(" " + v) == LStrip(v);
  }

  /** `CommaSeparatedStringSetParam.getListValues` */
  function SetValues(text: string): (r: set<string>)
    ensures forall x :: x in r <==> x in ListValues(text)
  {
    var values := ListValues(text);
    set x | x in values
  }

  /** `CommaSeparatedStringSetParam.valueToText`: the items in sorted order. */
  function SetText(values: set<string>): string
  {
    Join(SortedSet(values), ", ")
  }

  /** A non-empty set of plain items survives being written and read back. */
  lemma SetRoundTrip(values: set<string>)
    requires values != {}
    requires forall x :: x in values ==> ListItem(x)
    ensures SetValues(SetText(values)) == values
  {
    var sorted := SortedSet(values);
    SortedSetMembers(values);
    var x :| x in values;
    assert x in sorted;
    assert forall i :: 0 <= i < |sorted| ==> sorted[i] in values;
    ListRoundTrip(sorted);
    SetOfSeq(sorted, values);
  }

  /** The set of the items of a list that holds exactly the strings of `s`. */
  lemma SetOfSeq(xs: seq<string>, s: set<string>)
    requires forall x :: x in xs <==> x in s
    ensures (set x | x in xs) == s
  {
  }

  // ---------------------------------------------------------------------
  // Index choices
  // ---------------------------------------------------------------------

  /** The `choices` an `IndexChoiceParam` is built from: plain names, whose
      values are their indexes, or (value, name) pairs. */
  datatype Choices = Names(names: seq<string>) | Pairs(pairs: seq<(int, string)>)

  datatype IndexChoice = IndexChoice(choices: seq<string>, indexToValue: map<int, int>,
                                     valueToIndex: map<int, int>, default: int)

  /** The two tables of an `IndexChoiceParam` are inverse to each other and
      the default is one of the values. */
  predicate WellFormed(p: IndexChoice)
  {
    (forall i :: i in p.indexToValue ==> 0 <= i < |p.choices|)
    && (forall i :: 0 <= i < |p.choices| ==> i in p.indexToValue)
    && (forall i :: i in p.indexToValue ==> p.indexToValue[i] in p.valueToIndex)
    && (forall v :: v in p.valueToIndex ==> p.valueToIndex[v] in p.indexToValue && p.indexToValue[p.valueToIndex[v]] == v)
    && p.default in p.valueToIndex
  }

  /** `range(0, n)` used as a table from index to value and back. */
  function RangeTable(n: nat): (m: map<int, int>)
    ensures forall i :: i in m <==> 0 <= i < n
    ensures forall i :: i in m ==> m[i] == i
  {
    if n == 0 then map[] else RangeTable(n - 1)[n - 1 := n - 1]
  }

  /** `IndexChoiceParam.__init__(keyword, choices, default)` */
  method NewIndexChoice(choices: Choices, default: Option<int>) returns (p: IndexChoice)
    requires choices.Names? ==> |choices.names| > 0
    requires choices.Pairs? ==> |choices.pairs| > 0
    ensures WellFormed(p)
    ensures choices.Names? ==> p.choices == choices.names && forall i :: i in p.indexToValue ==> p.indexToValue[i] == i
    ensures choices.Pairs? ==> |p.choices| == |choices.pairs|
    ensures choices.Pairs? ==> forall i :: 0 <= i < |choices.pairs| ==>
              p.choices[i] == choices.pairs[i].1 && p.indexToValue[i] == choices.pairs[i].0
    ensures default.Some? && default.value in p.valueToIndex ==> p.default == default.value
    ensures (default.None? || default.value !in p.valueToIndex) ==> p.default == p.indexToValue[0]
  {
    var names: seq<string>;
    var toValue: map<int, int>;
    var toIndex: map<int, int>;
    match choices {
      case Names(ns) =>
        names := ns;
        toValue := RangeTable(|ns|);
        toIndex := toValue;
      case Pairs(pairs) =>
        names, toValue, toIndex := [], map[], map[];
        var index := 0;
        while index < |pairs|
          invariant 0 <= index <= |pairs| && |names| == index
          invariant forall i :: 0 <= i < index ==> names[i] == pairs[i].1
          invariant forall i :: i in toValue <==> 0 <= i < index
          invariant forall i :: 0 <= i < index ==> toValue[i] == pairs[i].0
          invariant forall v :: v in toIndex <==> exists i :: 0 <= i < index && pairs[i].0 == v
          invariant forall v :: v in toIndex ==> 0 <= toIndex[v] < index && pairs[toIndex[v]].0 == v
        {
          toValue := toValue[index := pairs[index].0];
          toIndex := toIndex[pairs[index].0 := index];
          names := names + [pairs[index].1];
          index := index + 1;
        }
    }
    var d := if default.Some? && default.value in toIndex then default.value else toValue[0];
    p := IndexChoice(names, toValue, toIndex, d);
  }

  /** `IndexChoiceParam.textToValue`: the number the text spells, if it is
      one of the values, and otherwise the default. */
  function TextToIndexValue(p: IndexChoice, text: string): (r: int)
    ensures p.default in p.valueToIndex ==> r in p.valueToIndex
    ensures r != p.default ==> ParseInt(Unquote(text)) == Some(r)
  {
    match ParseInt(Unquote(text))
    case None => p.default
    case Some(v) => if v in p.valueToIndex then v else p.default
  }

  /** Every value of the table survives being written (`str(value)`) and
      read back. */
  lemma IndexChoiceRoundTrip(p: IndexChoice, v: int)
    requires v in p.valueToIndex
    ensures TextToIndexValue(p, IntText(v)) == v
  {
    UnquoteIntText(v);
    ParseIntText(v);
  }

  /** `str(n)` carries no quotation marks to strip. */
  lemma UnquoteIntText(n: int)
    ensures Unquote(IntText(n)) == IntText(n)
  {
    var t := IntText(n);
    var digits := DigitText(if n < 0 then -n else n);
    assert |digits| > 0 && !IsQuote(digits[0]) && !IsQuote(digits[|digits| - 1]);
    if n < 0 {
      assert t == "-" + digits;
      assert t[|t| - 1] == digits[|digits| - 1];
    }
  }

  // ---------------------------------------------------------------------
  // Keyed choices
  // ---------------------------------------------------------------------

  datatype KeyedChoice = KeyedChoice(keys: seq<int>, choices: seq<string>, default: int)

  /** `list.index(x)`, with -1 for the `ValueError` of a missing item. */
  function IndexOf<T(==)>(xs: seq<T>, x: T): (r: int)
    ensures -1 <= r < |xs|
    ensures r == -1 <==> x !in xs
    ensures r >= 0 ==> xs[r] == x && forall j :: 0 <= j < r ==> xs[j] != x
  {
    if |xs| == 0 then -1
    else if xs[|xs| - 1] == x && IndexOf(xs[..|xs| - 1], x) == -1 then |xs| - 1
    else
      var r := IndexOf(xs[..|xs| - 1], x);
      assert r == -1 ==> x !in xs;
      r
  }

  /** `KeyedIndexChoiceParam.__init__(keyword, choices, default)`: the
      default is the key of the named choice, else the first key. */
  function NewKeyedChoice(pairs: seq<(int, string)>, default: Option<string>): (p: KeyedChoice)
    requires |pairs| > 0
    ensures |p.keys| == |p.choices| == |pairs|
    ensures forall i :: 0 <= i < |pairs| ==> p.keys[i] == pairs[i].0 && p.choices[i] == pairs[i].1
    ensures p.default in p.keys
    ensures default.Some? && default.value in p.choices ==>
              exists i :: 0 <= i < |pairs| && pairs[i].1 == default.value && p.default == pairs[i].0
    ensures (default.None? || default.value !in p.choices) ==> p.default == pairs[0].0
  {
    var choices := seq(|pairs|, i requires 0 <= i < |pairs| => pairs[i].1);
    var keys := seq(|pairs|, i requires 0 <= i < |pairs| => pairs[i].0);
    var d := if default.Some? && default.value in choices then keys[IndexOf(choices, default.value)] else keys[0];
    KeyedChoice(keys, choices, d)
  }

  /** `KeyedIndexChoiceParam.textToValue`: the key of the named choice; text
      that names no choice gives the first key. */
  function TextToKey(p: KeyedChoice, text: string): (r: int)
    requires |p.keys| == |p.choices| > 0
    ensures r in p.keys
    ensures Unquote(text) !in p.choices ==> r == p.keys[0]
    ensures Unquote(text) in p.choices ==> exists i :: 0 <= i < |p.keys| && p.choices[i] == Unquote(text) && r == p.keys[i]
  {
    var index := IndexOf(p.choices, Unquote(text));
    p.keys[if index < 0 then 0 else index]
  }

  /** `KeyedIndexChoiceParam.valueToText`: the choice of the key. */
  function KeyToText(p: KeyedChoice, key: int): (r: string)
    requires |p.keys| == |p.choices| && key in p.keys
    ensures exists i :: 0 <= i < |p.keys| && p.keys[i] == key && p.choices[i] == r
  {
    p.choices[IndexOf(p.keys, key)]
  }

  /** With distinct choices that carry no quotation marks at their ends,
      every key survives being written and read back. */
  lemma KeyedRoundTrip(p: KeyedChoice, key: int)
    requires |p.keys| == |p.choices| > 0 && key in p.keys
    requires forall i, j :: 0 <= i < j < |p.choices| ==> p.choices[i] != p.choices[j]
    requires forall i :: 0 <= i < |p.choices| ==> Unquoted(p.choices[i])
    ensures TextToKey(p, KeyToText(p, key)) == key
  {
    var i := IndexOf(p.keys, key);
    var text := p.choices[i];
    assert Unquote(text) == text;
    assert IndexOf(p.choices, text) == i;
  }

  // ---------------------------------------------------------------------
  // Parameters and their values
  // ---------------------------------------------------------------------

  /** A preference value as the program holds it; `Nothing` is Python's `None`. */
  datatype Value = Nothing | Text(s: string) | Flag(b: bool) | Items(xs: seq<string>)
                 | ItemSet(ys: set<string>) | Number(n: int)

  /** The `Param` subclass that converts a keyword's text. */
  datatype Converter = StrConv | UnquotedStrConv | BoolConv | ListConv | SetConv
                     | IndexConv(index: IndexChoice) | KeyedConv(keyed: KeyedChoice)

  /** An ordinary parameter, a `SupersededParam` or a `ParamSection` header. */
  datatype Role = Plain | Superseded | SectionHeader

  datatype Param = Param(keyword: string, conv: Converter, role: Role, hidden: bool, local: bool)

  /** `isVisible()`: superseded parameters and section headers never show. */
  predicate IsVisible(p: Param) { p.role.Plain? && !p.hidden }

  /** The value has the type the converter writes (the docstring of
      `setDefaults` demands that values match their parameters). */
  predicate Fits(conv: Converter, v: Value)
  {
    match conv
    case StrConv => v.Text?
    case UnquotedStrConv => v.Text?
    case BoolConv => v.Flag?
    case ListConv => v.Items?
    case SetConv => v.ItemSet?
    case IndexConv(_) => v.Number?
    case KeyedConv(k) => v.Number? && |k.keys| == |k.choices| && v.n in k.keys
  }

  /** The text `configToText` writes for value `v` of parameter `p`
      (`None`: no parameter declares it). Under `Renderable`, which
      `configToText` requires, the empty fallbacks never apply. */
  function RenderedValue(p: Option<Param>, v: Value): string
  {
    match p
    case None => if v.Text? then v.s else ""
    case Some(q) => if Fits(q.conv, v) then ValueToText(q.conv, v) else ""
  }

  /** The lines `lineOf` gives the first `n` of `keys`, in that order. */
  function LinesOf(keys: seq<string>, n: nat, lineOf: map<string, string>): seq<string>
    requires n <= |keys| && forall k :: k in keys ==> k in lineOf
  {
    if n == 0 then [] else LinesOf(keys, n - 1, lineOf) + [lineOf[keys[n - 1]]]
  }

  lemma {:induction false} LinesOfAt(keys: seq<string>, n: nat, lineOf: map<string, string>, m: nat)
    requires n <= |keys| && forall k :: k in keys ==> k in lineOf
    requires m < n
    ensures |LinesOf(keys, n, lineOf)| == n && LinesOf(keys, n, lineOf)[m] == lineOf[keys[m]]
  {
    if m < n - 1 {
      LinesOfAt(keys, n - 1, lineOf, m);
    } else if n > 1 {
      LinesOfAt(keys, n - 1, lineOf, 0);
    }
  }

  /** `lines` holds `header`, when there is anything to write, and the
      line of every key of `lineOf`. */
  predicate Covers(lines: seq<string>, header: string, lineOf: map<string, string>)
  {
    (lineOf != map[] ==> header in lines) &&
    forall o :: o in lineOf ==> lineOf[o] in lines
  }

  lemma CoversGrows(lines: seq<string>, more: seq<string>, header: string, lineOf: map<string, string>)
    requires Covers(lines, header, lineOf)
    ensures Covers(lines + more, header, lineOf)
  {
    forall x | x in lines ensures x in lines + more {
      var k :| 0 <= k < |lines| && lines[k] == x;
      assert (lines + more)[k] == x;
    }
  }

  lemma CoversPrefixed(lines: seq<string>, more: seq<string>, header: string, lineOf: map<string, string>)
    requires Covers(more, header, lineOf)
    ensures Covers(lines + more, header, lineOf)
  {
    forall x | x in more ensures x in lines + more {
      var k :| 0 <= k < |more| && more[k] == x;
      assert (lines + more)[|lines| + k] == x;
    }
  }

  /** The header followed by the lines of all of `keys` covers `lineOf`
      when `keys` lists exactly its keys. */
  lemma BlockCovers(keys: seq<string>, header: string, lineOf: map<string, string>)
    requires forall k :: k in keys <==> k in lineOf
    ensures Covers([header] + LinesOf(keys, |keys|, lineOf), header, lineOf)
  {
    var block := [header] + LinesOf(keys, |keys|, lineOf);
    assert block[0] in block;
    forall o | o in lineOf
      ensures lineOf[o] in block
    {
      var m :| 0 <= m < |keys| && keys[m] == o;
      LinesOfAt(keys, |keys|, lineOf, m);
      assert block[m + 1] == lineOf[o];
    }
  }

  /** `valueToText` of each parameter class. */
  function ValueToText(conv: Converter, v: Value): string
    requires Fits(conv, v)
  {
    match conv
    case StrConv => Quote(v.s)
    case UnquotedStrConv => v.s
    case BoolConv => BoolToText(v.b)
    case ListConv => ListText(v.xs)
    case SetConv => SetText(v.ys)
    case IndexConv(_) => IntText(v.n)
    case KeyedConv(k) => KeyToText(k, v.n)
  }

  /** `textToValue` of each parameter class. */
  function TextToValue(conv: Converter, text: string): (r: Value)
    requires conv.KeyedConv? ==> |conv.keyed.keys| == |conv.keyed.choices| > 0
    ensures Fits(conv, r)
  {
    match conv
    case StrConv => Text(Unquote(text))
    case UnquotedStrConv => Text(Unquote(text))
    case BoolConv => Flag(TextToBool(text))
    case ListConv => Items(ListValues(text))
    case SetConv => ItemSet(SetValues(text))
    case IndexConv(p) => Number(TextToIndexValue(p, text))
    case KeyedConv(k) => Number(TextToKey(k, text))
  }

  /** The values each converter writes in a form it reads back unchanged. */
  predicate RoundTrips(conv: Converter, v: Value)
  {
    Fits(conv, v) &&
    match conv
    case StrConv => true
    case UnquotedStrConv => Unquoted(v.s)
    case BoolConv => true
    case ListConv => |v.xs| >= 1 && forall i :: 0 <= i < |v.xs| ==> ListItem(v.xs[i])
    case SetConv => v.ys != {} && forall x :: x in v.ys ==> ListItem(x)
    case IndexConv(p) => v.n in p.valueToIndex
    case KeyedConv(k) =>
      |k.keys| > 0
      && (forall i, j :: 0 <= i < j < |k.choices| ==> k.choices[i] != k.choices[j])
      && (forall i :: 0 <= i < |k.choices| ==> Unquoted(k.choices[i]))
  }

  /** Writing a value to the configuration text and reading it back gives
      the value again. */
  lemma ConversionRoundTrip(conv: Converter, v: Value)
    requires RoundTrips(conv, v)
    ensures TextToValue(conv, ValueToText(conv, v)) == v
  {
    match conv
    case StrConv => UnquoteQuote(v.s);
    case UnquotedStrConv =>
    case BoolConv => BoolRoundTrip(v.b);
    case ListConv => ListRoundTrip(v.xs);
    case SetConv => SetRoundTrip(v.ys);
    case IndexConv(p) => IndexChoiceRoundTrip(p, v.n);
    case KeyedConv(k) => KeyedRoundTrip(k, v.n);
  }

  // ---------------------------------------------------------------------
  // The preference store
  // ---------------------------------------------------------------------

  type Sections = map<string, map<string, Value>>

  /** `findParam`'s option name: the part before a `[subscript]`, unless the
      bracket opens the name. */
  function BaseOption(option: string): (r: string)
    ensures r <= option
  {
    var index := Find(option, "[");
    if index > 0 then option[..index] else option
  }

  /** The classes `findParam` searches: the section itself, then the rest of
      its class hierarchy. */
  function SearchNames(hierarchy: map<string, seq<string>>, section: string): seq<string>
  {
    [section] + (if section in hierarchy && |hierarchy[section]| > 0 then hierarchy[section][1..] else [])
  }

  /** The parameter of `option` in the first of `names` that defines it. */
  function FirstParam(params: map<string, map<string, Param>>, names: seq<string>, option: string): Option<Param>
  {
    if |names| == 0 then None
    else if names[0] in params && option in params[names[0]] then Some(params[names[0]][option])
    else FirstParam(params, names[1..], option)
  }

  /** `findParam` finds nothing exactly when no class on the search path
      declares the option, and otherwise the first declaration. */
  lemma {:induction false} FirstParamIsFirst(params: map<string, map<string, Param>>, names: seq<string>, option: string)
    ensures FirstParam(params, names, option).None? <==>
              forall k :: 0 <= k < |names| ==> !(names[k] in params && option in params[names[k]])
    ensures FirstParam(params, names, option).Some? ==>
              exists k :: 0 <= k < |names| && names[k] in params && option in params[names[k]]
                && FirstParam(params, names, option).value == params[names[k]][option]
                && forall j :: 0 <= j < k ==> !(names[j] in params && option in params[names[j]])
  {
    if |names| > 0 && !(names[0] in params && option in params[names[0]]) {
      FirstParamIsFirst(params, names[1..], option);
      assert forall k :: 1 <= k < |names| ==> names[k] == names[1..][k - 1];
      if FirstParam(params, names, option).Some? {
        var k :| 0 <= k < |names[1..]| && names[1..][k] in params && option in params[names[1..][k]]
                 && FirstParam(params, names, option).value == params[names[1..][k]][option]
                 && forall j :: 0 <= j < k ==> !(names[1..][j] in params && option in params[names[1..][j]]);
        assert names[k + 1] == names[1..][k];
      }
    }
  }

  /** `setDefaults(defs)`: every section's defaults updated by `defs`. */
  function Merged(d: Sections, defs: Sections): Sections
  {
    map s | s in d.Keys + defs.Keys :: if s in defs then (if s in d then d[s] else map[]) + defs[s] else d[s]
  }

  /** The defaults of `defs` win, the others are kept, and nothing else appears. */
  lemma MergedKeepsAndOverrides(d: Sections, defs: Sections)
    ensures forall s :: s in Merged(d, defs) <==> s in d || s in defs
    ensures forall s, o :: s in defs && o in defs[s] ==> o in Merged(d, defs)[s] && Merged(d, defs)[s][o] == defs[s][o]
    ensures forall s, o :: s in d && o in d[s] && !(s in defs && o in defs[s]) ==>
              o in Merged(d, defs)[s] && Merged(d, defs)[s][o] == d[s][o]
    ensures forall s, o :: s in Merged(d, defs) && o in Merged(d, defs)[s] ==>
              (s in defs && o in defs[s]) || (s in d && o in d[s])
  {
  }

  /** The defaults after the sections `done` of `defs` have been merged. */
  function PartlyMerged(d: Sections, defs: Sections, done: set<string>): Sections
    requires done <= defs.Keys
  {
    map s | s in d.Keys + done :: if s in done then (if s in d then d[s] else map[]) + defs[s] else d[s]
  }

  lemma MergeStep(d: Sections, defs: Sections, done: set<string>, section: string)
    requires done <= defs.Keys && section in defs && section !in done
    ensures var m := PartlyMerged(d, defs, done);
      m[section := (if section in m then m[section] else map[]) + defs[section]] == PartlyMerged(d, defs, done + {section})
  {
  }

  /** The parameter table after `setDefaults` has made room for `added`:
      every new section starts without parameters. */
  function WithSections(params: map<string, map<string, Param>>, added: set<string>): (r: map<string, map<string, Param>>)
    ensures forall s :: s in r <==> s in params || s in added
    ensures forall s :: s in params ==> r[s] == params[s]
    ensures forall s :: s in r && s !in params ==> r[s] == map[]
  {
    map s | s in params.Keys + added :: if s in params then params[s] else map[]
  }

  lemma WithSectionsStep(params: map<string, map<string, Param>>, added: set<string>, section: string)
    ensures var m := WithSections(params, added);
      (if section in m then m else m[section := map[]]) == WithSections(params, added + {section})
  {
  }

  function Elems(keys: seq<string>): set<string>
  {
    set k | k in keys
  }

  /** The defaults after merging the sections `keys` of `defs` one by one. */
  function MergedInOrder(d: Sections, defs: Sections, keys: seq<string>): Sections
    requires forall k :: k in keys ==> k in defs
  {
    if |keys| == 0 then d
    else
      var m := MergedInOrder(d, defs, keys[..|keys| - 1]);
      var k := keys[|keys| - 1];
      m[k := (if k in m then m[k] else map[]) + defs[k]]
  }

  /** Merging distinct sections one at a time, in any order, gives the merge. */
  lemma {:induction false} MergedInOrderIsMerged(d: Sections, defs: Sections, keys: seq<string>)
    requires forall k :: k in keys ==> k in defs
    requires forall i, j :: 0 <= i < j < |keys| ==> keys[i] != keys[j]
    ensures MergedInOrder(d, defs, keys) == PartlyMerged(d, defs, Elems(keys))
  {
    if |keys| > 0 {
      var prefix := keys[..|keys| - 1];
      MergedInOrderIsMerged(d, defs, prefix);
      var k := keys[|keys| - 1];
      assert Elems(keys) == Elems(prefix) + {k};
      assert k !in prefix;
      MergeStep(d, defs, Elems(prefix), k);
    }
  }

  /** The parameter table after making room for the sections `keys` one by one. */
  function WithSectionsInOrder(params: map<string, map<string, Param>>, keys: seq<string>): map<string, map<string, Param>>
  {
    if |keys| == 0 then params
    else
      var m := WithSectionsInOrder(params, keys[..|keys| - 1]);
      var k := keys[|keys| - 1];
      if k in m then m else m[k := map[]]
  }

  lemma {:induction false} WithSectionsInOrderIsWithSections(params: map<string, map<string, Param>>, keys: seq<string>)
    ensures WithSectionsInOrder(params, keys) == WithSections(params, Elems(keys))
  {
    if |keys| > 0 {
      var prefix := keys[..|keys| - 1];
      WithSectionsInOrderIsWithSections(params, prefix);
      assert Elems(keys) == Elems(prefix) + {keys[|keys| - 1]};
      WithSectionsStep(params, Elems(prefix), keys[|keys| - 1]);
    }
  }

  lemma ElemsSorted(s: set<string>)
    ensures Elems(SortedSet(s)) == s
  {
    var keys := SortedSet(s);
    SortedSetMembers(s);
    assert forall k :: k in Elems(keys) <==> k in keys;
  }

  /** Walking the sections of `defs` in sorted order merges all of them. */
  lemma SortedKeysMerge(d: Sections, params: map<string, map<string, Param>>, defs: Sections)
    ensures forall k :: k in SortedSet(defs.Keys) <==> k in defs
    ensures MergedInOrder(d, defs, SortedSet(defs.Keys)) == Merged(d, defs)
    ensures WithSectionsInOrder(params, SortedSet(defs.Keys)) == WithSections(params, defs.Keys)
  {
    var keys := SortedSet(defs.Keys);
    SortedSetSpec(defs.Keys);
    ElemsSorted(defs.Keys);
    MergedInOrderIsMerged(d, defs, keys);
    MergeDone(d, defs);
    WithSectionsInOrderIsWithSections(params, keys);
  }

  lemma MergeDone(d: Sections, defs: Sections)
    ensures PartlyMerged(d, defs, defs.Keys) == Merged(d, defs)
  {
  }

  /** Every option of the section is saved with the same value. */
  predicate SectionSaved(user: Sections, saved: Sections, s: string)
    requires s in user
  {
    s in saved && forall o :: o in user[s] ==> o in saved[s] && user[s][o] == saved[s][o]
  }

  /** `isUserConfigChanged()`: a section, an option or a value that the saved
      copy does not have. */
  predicate Changed(user: Sections, saved: Sections)
  {
    exists s :: s in user && !SectionSaved(user, saved, s)
  }

  /** Right after the copy is taken nothing counts as changed. */
  lemma SavedIsUnchanged(user: Sections)
    ensures !Changed(user, user)
  {
  }

  /** Setting an option to a value the saved copy does not hold is a change. */
  lemma SettingIsChange(user: Sections, saved: Sections, start: string, name: string, v: Value)
    requires start in user
    requires start !in saved || name !in saved[start] || saved[start][name] != v
    ensures Changed(user[start := user[start][name := v]], saved)
  {
    var u := user[start := user[start][name := v]];
    assert start in u && !SectionSaved(u, saved, start);
  }

  /** The fixed comment block at the top of the saved configuration. */
  const Header: seq<string> := [
    "# Automatically generated file!  Do not edit -- use one of the following",
    "# files instead:",
    "#",
    "# peppy.cfg        For general configuration on all platforms",
    "# [platform].cfg   For configuration on a specific platform, where [platform]",
    "#                  is one of the platforms returned by the command",
    "#                  python -c 'import platform; print platform.system()'",
    "# [machine].cfg    For configuration on a specific machine, where [machine]",
    "#                  is the hostname as returned by the command",
    "#                  python -c 'import platform; print platform.node()'",
    ""]

  /** The class-wide preferences (`GlobalPrefs`): the defaults and the user's
      settings by section (class name) and option, the parameters each class
      declares, the class name hierarchies and the copy of the user's
      settings taken after loading. */
  class GlobalPrefs {
    var default: Sections
    var params: map<string, map<string, Param>>
    var user: Sections
    var saveUser: Sections
    var nameHierarchy: map<string, seq<string>>

    constructor ()
      ensures default == map[] && params == map[] && user == map[] && saveUser == map[] && nameHierarchy == map[]
    {
      default, params, user, saveUser, nameHierarchy := map[], map[], map[], map[], map[];
    }

    /** `findParam(section, option)` */
    method FindParam(section: string, option: string) returns (r: Option<Param>)
      ensures r == FirstParam(params, SearchNames(nameHierarchy, section), BaseOption(option))
    {
      var names := SearchNames(nameHierarchy, section);
      var opt := BaseOption(option);
      r := None;
      var i := 0;
      while i < |names|
        invariant 0 <= i <= |names|
        invariant FirstParam(params, names, opt) == FirstParam(params, names[i..], opt)
      {
        if names[i] in params && opt in params[names[i]] {
          r := Some(params[names[i]][opt]);
          return;
        }
        assert names[i..][1..] == names[i + 1..];
        i := i + 1;
      }
    }

    /** `setDefaults(defs)`: the sections of `defs` are merged over the
        defaults, and every one of them gets a (possibly empty) table of
        parameters. */
    method SetDefaults(defs: Sections)
      modifies this`default, this`params
      ensures default == Merged(old(default), defs)
      ensures params == WithSections(old(params), defs.Keys)
    {
      var keys := SortedSet(defs.Keys);
      SortedSetMembers(defs.Keys);
      MergeSections(defs, keys);
      SortedKeysMerge(old(default), old(params), defs);
    }

    /** The loop of `setDefaults` over the sections `keys` of `defs`. */
    method MergeSections(defs: Sections, keys: seq<string>)
      requires forall k :: k in keys ==> k in defs
      modifies this`default, this`params
      ensures default == MergedInOrder(old(default), defs, keys)
      ensures params == WithSectionsInOrder(old(params), keys)
    {
      var i := 0;
      while i < |keys|
        invariant 0 <= i <= |keys|
        invariant default == MergedInOrder(old(default), defs, keys[..i])
        invariant params == WithSectionsInOrder(old(params), keys[..i])
      {
        assert keys[..i + 1][..i] == keys[..i];
        MergeSection(keys[i], defs[keys[i]]);
        i := i + 1;
      }
      assert keys[..i] == keys;
    }

    /** One pass of the loop in `setDefaults`. */
    method MergeSection(section: string, defaults: map<string, Value>)
      modifies this`default, this`params
      ensures default == old(default)[section := (if section in old(default) then old(default)[section] else map[]) + defaults]
      ensures params == if section in old(params) then old(params) else old(params)[section := map[]]
    {
      if section !in default {
        default := default[section := map[]];
      }
      default := default[section := default[section] + defaults];
      if section !in params {
        params := params[section := map[]];
      }
    }

    /** The copy `convertConfig` keeps of the converted user settings. */
    method SaveUser()
      modifies this`saveUser
      ensures saveUser == user
      ensures !Changed(user, saveUser)
    {
      saveUser := user;
      SavedIsUnchanged(user);
    }

    /** `isUserConfigChanged()` */
    method IsUserConfigChanged() returns (changed: bool)
      ensures changed == Changed(user, saveUser)
    {
      var sections := user.Keys;
      while sections != {}
        invariant sections <= user.Keys
        invariant forall s :: s in user && s !in sections ==> SectionSaved(user, saveUser, s)
        decreases |sections|
      {
        var section :| section in sections;
        if section !in saveUser {
          return true;
        }
        var options := user[section].Keys;
        while options != {}
          invariant options <= user[section].Keys
          invariant forall o :: o in user[section] && o !in options ==>
                      o in saveUser[section] && user[section][o] == saveUser[section][o]
          decreases |options|
        {
          var option :| option in options;
          if option !in saveUser[section] || user[section][option] != saveUser[section][option] {
            return true;
          }
          options := options - {option};
        }
        sections := sections - {section};
      }
      return false;
    }

    /** The line `configToText` writes for one option. */
    function OptionLine(s: string, o: string): string
      reads this
      requires s in user && o in user[s]
    {
      o + " = " + RenderedValue(FirstParam(params, SearchNames(nameHierarchy, s), BaseOption(o)), user[s][o])
    }

    /** Every user value can be written: it fits the parameter that
        `findParam` finds for it, or there is none and it is still text. */
    predicate Renderable()
      reads this
    {
      forall s, o :: s in user && o in user[s] ==>
        match FirstParam(params, SearchNames(nameHierarchy, s), BaseOption(o))
        case None => user[s][o].Text?
        case Some(p) => Fits(p.conv, user[s][o])
    }

    /** `configToText()` with `linesep` for `os.linesep`: the header, then
        for every section with options, in sorted order, `[section]` and an
        `option = text` line per option in sorted order, then a blank line. */
    method ConfigToText(linesep: string) returns (lines: seq<string>, text: string)
      requires Renderable()
      ensures (SortedSetMembers(user.Keys); lines == Header + SectionsText(SortedSet(user.Keys)))
      ensures Header <= lines
      ensures forall s :: s in user ==> Written(s, lines)
      ensures text == Join(lines, linesep)
    {
      SortedSetMembers(user.Keys);
      lines := AppendSections(Header, SortedSet(user.Keys));
      text := Join(lines, linesep);
    }

    /** The loop of `configToText` over `sections`, appending to `start`. */
    method AppendSections(start: seq<string>, sections: seq<string>) returns (lines: seq<string>)
      requires forall k :: k in sections ==> k in user
      ensures lines == start + SectionsText(sections)
      ensures start <= lines
      ensures forall k :: k in sections ==> Written(k, lines)
    {
      lines := start;
      ghost var added := [];
      var i := 0;
      while i < |sections|
        invariant 0 <= i <= |sections|
        invariant lines == start + added
        invariant added == SectionsText(sections[..i])
        invariant AllWritten(sections[..i], lines)
      {
        var extra := AppendSection(lines, sections[i]);
        AllWrittenGrows(sections[..i], lines, extra);
        assert sections[..i + 1][..i] == sections[..i];
        assert SectionsText(sections[..i + 1]) == SectionsText(sections[..i]) + SectionText(sections[i]);
        AppendAssoc(start, added, extra);
        added := added + extra;
        lines := lines + extra;
        i := i + 1;
      }
      PrefixOfAppend(start, added);
      assert sections[..i] == sections;
      forall k | k in sections
        ensures Written(k, lines)
      {
        AllWrittenMember(sections, lines, k);
      }
    }

    /** Every one of `secs` is written in `lines`. */
    ghost predicate AllWritten(secs: seq<string>, lines: seq<string>)
      reads this
      requires forall k :: k in secs ==> k in user
    {
      |secs| == 0 ||
      (AllWritten(secs[..|secs| - 1], lines) && Written(secs[|secs| - 1], lines))
    }

    lemma {:induction false} AllWrittenGrows(secs: seq<string>, lines: seq<string>, extra: seq<string>)
      requires forall k :: k in secs ==> k in user
      requires AllWritten(secs, lines)
      ensures AllWritten(secs, lines + extra)
    {
      if |secs| > 0 {
        var last := secs[|secs| - 1];
        AllWrittenGrows(secs[..|secs| - 1], lines, extra);
        CoversGrows(lines, extra, "[" + last + "]", RenderedLines(last));
      }
    }

    lemma {:induction false} AllWrittenMember(secs: seq<string>, lines: seq<string>, k: string)
      requires forall s :: s in secs ==> s in user
      requires AllWritten(secs, lines) && k in secs
      ensures Written(k, lines)
    {
      if k != secs[|secs| - 1] {
        assert k in secs[..|secs| - 1];
        AllWrittenMember(secs[..|secs| - 1], lines, k);
      }
    }

    /** One pass of the loop in `configToText`: the lines it appends to
        `lines`, the section's block and a blank line when the section has
        options, nothing otherwise. */
    method AppendSection(lines: seq<string>, section: string) returns (extra: seq<string>)
      requires section in user
      ensures extra == SectionText(section)
      ensures Written(section, lines + extra)
    {
      if user[section] != map[] {
        var block := SectionLines(section);
        CoversGrows(block, [""], "[" + section + "]", RenderedLines(section));
        CoversPrefixed(lines, block + [""], "[" + section + "]", RenderedLines(section));
        extra := block + [""];
      } else {
        extra := [];
        assert lines + extra == lines;
        assert RenderedLines(section) == map[];
      }
    }

    /** Each option of section `s` with the line `configToText` writes for it. */
    ghost function RenderedLines(s: string): (r: map<string, string>)
      reads this
      requires s in user
      ensures r.Keys == user[s].Keys
    {
      map o | o in user[s] :: OptionLine(s, o)
    }

    /** `lines` holds what `configToText` writes for section `s`: its
        `[s]` header when it has options, and each option's line. */
    ghost predicate Written(s: string, lines: seq<string>)
      reads this
      requires s in user
    {
      Covers(lines, "[" + s + "]", RenderedLines(s))
    }

    lemma LinesStep(s: string, keys: seq<string>, j: nat)
      requires s in user && forall k :: k in keys ==> k in user[s]
      requires j < |keys|
      ensures LinesOf(keys, j + 1, RenderedLines(s)) == LinesOf(keys, j, RenderedLines(s)) + [OptionLine(s, keys[j])]
    {
    }

    /** The lines of one section with options: its name in brackets and one
        line per option, in sorted order. */
    method SectionLines(section: string) returns (block: seq<string>)
      requires section in user
      ensures block == ["[" + section + "]"] + OptionLines(section)
      ensures Written(section, block)
    {
      var keys := SortedSet(user[section].Keys);
      SortedSetMembers(user[section].Keys);
      block := ["[" + section + "]"];
      var j := 0;
      while j < |keys|
        invariant 0 <= j <= |keys|
        invariant block == ["[" + section + "]"] + LinesOf(keys, j, RenderedLines(section))
      {
        var line := RenderOption(section, keys[j]);
        LinesStep(section, keys, j);
        AppendAssoc(["[" + section + "]"], LinesOf(keys, j, RenderedLines(section)), [line]);
        block := block + [line];
        j := j + 1;
      }
      BlockCovers(keys, "[" + section + "]", RenderedLines(section));
    }

    /** One `option = text` line of `configToText`. */
    method RenderOption(section: string, option: string) returns (line: string)
      requires section in user && option in user[section]
      ensures line == OptionLine(section, option)
    {
      var param := FindParam(section, option);
      var value := user[section][option];
      var rendered := RenderedValue(param, value);
      line := option + " = " + rendered;
    }

    /** Each option line of section `s`, in sorted option order. */
    ghost function OptionLines(s: string): seq<string>
      reads this
      requires s in user
    {
      SortedSetMembers(user[s].Keys);
      LinesOf(SortedSet(user[s].Keys), |SortedSet(user[s].Keys)|, RenderedLines(s))
    }

    /** What `configToText` writes for section `s`: nothing when it has no
        options, otherwise `[s]`, its option lines and a blank line. */
    ghost function SectionText(s: string): seq<string>
      reads this
      requires s in user
    {
      if user[s] == map[] then [] else ["[" + s + "]"] + OptionLines(s) + [""]
    }

    /** What `configToText` writes for `secs`, one section after the other. */
    ghost function SectionsText(secs: seq<string>): seq<string>
      reads this
      requires forall k :: k in secs ==> k in user
    {
      if secs == [] then [] else SectionsText(secs[..|secs| - 1]) + SectionText(secs[|secs| - 1])
    }

    /** `PrefsProxy.__setattr__(name, value)` on the proxy of class `start`:
        `None` for a subscripted name removes it, anything else is stored. */
    method SetAttr(start: string, name: string, value: Value)
      requires start in user
      modifies this`user
      ensures value == Nothing && '[' in name && ']' in name ==>
                user == old(user)[start := old(user)[start] - {name}]
      ensures !(value == Nothing && '[' in name && ']' in name) ==>
                user == old(user)[start := old(user)[start][name := value]]
    {
      if value == Nothing && '[' in name && ']' in name {
        user := user[start := user[start] - {name}];
      } else {
        user := user[start := user[start][name := value]];
      }
    }
  }

  // ---------------------------------------------------------------------
  // PrefsProxy._getAllSubscripts

  /** `key.startswith(name + "[") and key[-1] == ']'` */
  predicate IsSubscriptKey(name: string, key: string)
  {
    |key| >= |name| + 1 && key[..|name| + 1] == name + "[" && |key| > 0 && key[|key| - 1] == ']'
  }

  /** `key[len(name + "["):-1]` */
  function SubscriptOf(name: string, key: string): (x: string)
    requires IsSubscriptKey(name, key)
    ensures key == name + "[" + x + "]"
  {
    var x := key[|name| + 1..|key| - 1];
    assert key == key[..|name| + 1] + x + [key[|key| - 1]];
    x
  }

  lemma SubscriptKeyOf(name: string, x: string)
    ensures IsSubscriptKey(name, name + "[" + x + "]")
    ensures SubscriptOf(name, name + "[" + x + "]") == x
  {
    var key := name + "[" + x + "]";
    assert key[..|name| + 1] == name + "[";
    assert key[|name| + 1..|key| - 1] == x;
  }

  /** The subscripts of the keys in `order`, in that order. */
  function Collected(name: string, order: seq<string>): seq<string>
  {
    if |order| == 0 then []
    else
      var k := order[|order| - 1];
      Collected(name, order[..|order| - 1]) + if IsSubscriptKey(name, k) then [SubscriptOf(name, k)] else []
  }

  lemma {:induction false} CollectedMembers(name: string, order: seq<string>)
    ensures forall x :: x in Collected(name, order) <==> name + "[" + x + "]" in order
  {
    if |order| > 0 {
      var prefix := order[..|order| - 1];
      var k := order[|order| - 1];
      CollectedMembers(name, prefix);
      assert order == prefix + [k];
      forall x ensures x in Collected(name, order) <==> name + "[" + x + "]" in order {
        SubscriptKeyOf(name, x);
      }
    }
  }

  /** The subscript of the last key in `order` whose value is `value`, or
      `fallback` when there is none. */
  function LastDefault(d: map<string, Value>, name: string, order: seq<string>, value: Value, fallback: string): string
    requires forall k :: k in order ==> k in d
  {
    if |order| == 0 then fallback
    else
      var k := order[|order| - 1];
      if IsSubscriptKey(name, k) && d[k] == value then SubscriptOf(name, k)
      else LastDefault(d, name, order[..|order| - 1], value, fallback)
  }

  lemma {:induction false} LastDefaultFound(d: map<string, Value>, name: string, order: seq<string>, value: Value, fallback: string)
    requires forall k :: k in order ==> k in d
    ensures var x := LastDefault(d, name, order, value, fallback);
            x == fallback || (name + "[" + x + "]" in order && d[name + "[" + x + "]"] == value)
  {
    if |order| > 0 {
      LastDefaultFound(d, name, order[..|order| - 1], value, fallback);
    }
  }

  /** The subscripts of a keyword, sorted, and the position of the default
      among them. */
  datatype SubscriptList = SubscriptList(names: seq<string>, index: nat)

  /** The subscript that names the default: the text stored under
      `defaultKey` (`None` when the stored value is not text), or else the
      last subscript whose value equals the value of the bare `name`; when
      that value is `None` no subscript is compared and the default stays
      `""`. */
  function DefaultSubscript(d: map<string, Value>, name: string, defaultKey: Option<string>, order: seq<string>): Option<string>
    requires forall k :: k in order ==> k in d
    requires defaultKey.None? ==> name in d
    requires defaultKey.Some? ==> defaultKey.value in d
  {
    match defaultKey
    case Some(k) => if d[k].Text? then Some(d[k].s) else None
    case None => if d[name] == Nothing then Some("") else Some(LastDefault(d, name, order, d[name], ""))
  }

  /** What `_getAllSubscripts` returns for the dictionary `d` found for the
      keyword, when `d.keys()` yields `order`. */
  function Subscripts(d: map<string, Value>, name: string, defaultKey: Option<string>, order: seq<string>): SubscriptList
    requires forall k :: k in order ==> k in d
    requires defaultKey.None? ==> name in d
    requires defaultKey.Some? ==> defaultKey.value in d
  {
    var collected := Collected(name, order);
    if collected == [] then SubscriptList(["default"], 0)
    else
      var names := SortedSet(Elems(collected));
      var ds := DefaultSubscript(d, name, defaultKey, order);
      SubscriptList(names, if ds.Some? && ds.value in names then IndexOf(names, ds.value) else 0)
  }

  /** With no subscripted key the answer is `['default']` at index 0;
      otherwise the subscripts are sorted, are exactly those `x` for which
      `name[x]` is a key, and the index points at the default subscript,
      or is 0 when that is not among them. */
  lemma SubscriptsSpec(d: map<string, Value>, name: string, defaultKey: Option<string>, order: seq<string>)
    requires forall k :: k in order <==> k in d
    requires defaultKey.None? ==> name in d
    requires defaultKey.Some? ==> defaultKey.value in d
    ensures var r := Subscripts(d, name, defaultKey, order);
            (forall x :: name + "[" + x + "]" !in d) ==> r == SubscriptList(["default"], 0)
    ensures var r := Subscripts(d, name, defaultKey, order);
            (exists x :: name + "[" + x + "]" in d) ==>
              SortedStrings(r.names) && (forall x :: x in r.names <==> name + "[" + x + "]" in d) &&
              r.index < |r.names|
    ensures var r := Subscripts(d, name, defaultKey, order);
            var ds := DefaultSubscript(d, name, defaultKey, order);
            (exists x :: name + "[" + x + "]" in d) ==>
              if ds.Some? && ds.value in r.names then r.names[r.index] == ds.value else r.index == 0
  {
    CollectedMembers(name, order);
    var collected := Collected(name, order);
    if collected != [] {
      SortedSetSpec(Elems(collected));
      assert collected[0] in collected;
    } else {
      forall x ensures name + "[" + x + "]" !in d {
        assert x !in collected;
      }
    }
  }

  /** A bare keyword whose value is `None` names no default: the default
      subscript stays `""`, so unless some key is `name[]` the index is 0,
      even where a subscripted key also holds `None`. */
  lemma NothingNamesNoDefault(d: map<string, Value>, name: string, order: seq<string>)
    requires forall k :: k in order <==> k in d
    requires name in d && d[name] == Nothing
    ensures DefaultSubscript(d, name, None, order) == Some("")
    ensures name + "[]" !in d ==> Subscripts(d, name, None, order).index == 0
  {
    SubscriptsSpec(d, name, None, order);
    if name + "[]" !in d {
      assert name + "[" + "" + "]" == name + "[]";
    }
  }

  /** `{"x": None, "x[a]": "v", "x[b]": None}`: the subscript `b` does not
      become the default, because the bare value is `None`. */
  lemma NothingDefaultExample()
    ensures var d := map["x" := Nothing, "x[a]" := Text("v"), "x[b]" := Nothing];
            Subscripts(d, "x", None, ["x", "x[a]", "x[b]"]).index == 0
  {
    var d := map["x" := Nothing, "x[a]" := Text("v"), "x[b]" := Nothing];
    assert "x[]" !in d by {
      assert "x[]" != "x" && "x[]" != "x[a]" && "x[]" != "x[b]";
    }
    NothingNamesNoDefault(d, "x", ["x", "x[a]", "x[b]"]);
  }

  /** `PrefsProxy._getAllSubscripts(name, default_key)` on the dictionary
      `d` that `_findNameInHierarchy` found, whose keys come out of
      `d.keys()` in the order `order`. The subscripts of distinct keys are
      distinct, so sorting the collected list gives the sorted enumeration
      of its elements. */
  method AllSubscripts(d: map<string, Value>, name: string, defaultKey: Option<string>, order: seq<string>)
    returns (r: SubscriptList)
    requires forall k :: k in order ==> k in d
    requires defaultKey.None? ==> name in d
    requires defaultKey.Some? ==> defaultKey.value in d
    ensures r == Subscripts(d, name, defaultKey, order)
  {
    var defaultValue: Option<Value>;
    var defaultSubscript: Option<string>;
    if defaultKey.Some? {
      var v := d[defaultKey.value];
      defaultSubscript := if v.Text? then Some(v.s) else None;
      defaultValue := None;
    } else {
      defaultValue := if d[name] == Nothing then None else Some(d[name]);
      defaultSubscript := Some("");
    }
    var subscripts := [];
    var i := 0;
    while i < |order|
      invariant 0 <= i <= |order|
      invariant subscripts == Collected(name, order[..i])
      invariant defaultKey.Some? ==> defaultValue.None? && defaultSubscript == DefaultSubscript(d, name, defaultKey, order)
      invariant defaultKey.None? ==>
                  defaultValue == (if d[name] == Nothing then None else Some(d[name]))
                  && defaultSubscript == DefaultSubscript(d, name, defaultKey, order[..i])
    {
      var key := order[i];
      assert order[..i + 1][..i] == order[..i];
      if IsSubscriptKey(name, key) {
        var subscript := key[|name| + 1..|key| - 1];
        subscripts := subscripts + [subscript];
        if defaultValue.Some? && d[key] == defaultValue.value {
          defaultSubscript := Some(subscript);
        }
      }
      i := i + 1;
    }
    assert order[..i] == order;
    if subscripts != [] {
      var names := SortedSet(Elems(subscripts));
      var index := if defaultSubscript.Some? && defaultSubscript.value in names then IndexOf(names, defaultSubscript.value) else 0;
      r := SubscriptList(names, index);
    } else {
      r := SubscriptList(["default"], 0);
    }
  }

  // ---------------------------------------------------------------------
  // PrefPanel.getSections

  /** A titled group of parameters for one static box. */
  datatype ParamGroup = ParamGroup(title: string, params: seq<Param>)

  /** The groups that `params` make, continuing the open group `title`
      that already holds `current`. */
  function Grouped(params: seq<Param>, title: string, current: seq<Param>): seq<ParamGroup>
  {
    if |params| == 0 then [ParamGroup(title, current)]
    else if params[0].role.SectionHeader? then
      [ParamGroup(title, current)] + Grouped(params[1..], params[0].keyword, [])
    else Grouped(params[1..], title, current + [params[0]])
  }

  function HeaderCount(params: seq<Param>): nat
  {
    if |params| == 0 then 0
    else (if params[0].role.SectionHeader? then 1 else 0) + HeaderCount(params[1..])
  }

  /** The parameters that are not section headers, in order. */
  function NonHeaders(params: seq<Param>): seq<Param>
  {
    if |params| == 0 then []
    else (if params[0].role.SectionHeader? then [] else [params[0]]) + NonHeaders(params[1..])
  }

  /** All parameters of the groups, in order. */
  function Flattened(groups: seq<ParamGroup>): seq<Param>
  {
    if |groups| == 0 then [] else groups[0].params + Flattened(groups[1..])
  }

  lemma {:induction false} GroupedShape(params: seq<Param>, title: string, current: seq<Param>)
    ensures var r := Grouped(params, title, current);
            |r| == HeaderCount(params) + 1 && r[0].title == title &&
            Flattened(r) == current + NonHeaders(params)
    decreases |params|
  {
    if |params| > 0 {
      var r := Grouped(params, title, current);
      if params[0].role.SectionHeader? {
        GroupedShape(params[1..], params[0].keyword, []);
        var rest := Grouped(params[1..], params[0].keyword, []);
        assert r[1..] == rest;
      } else {
        GroupedShape(params[1..], title, current + [params[0]]);
        assert current + [params[0]] + NonHeaders(params[1..]) == current + ([params[0]] + NonHeaders(params[1..]));
      }
    }
  }

  /** Some section header of `params` has keyword `t`. */
  predicate HeaderTitled(params: seq<Param>, t: string)
  {
    exists p :: p in params && p.role.SectionHeader? && p.keyword == t
  }

  /** No group holds a section header. */
  predicate HeaderFree(groups: seq<ParamGroup>)
  {
    forall g :: g in groups ==> forall p :: p in g.params ==> !p.role.SectionHeader?
  }

  /** Groups hold no section headers. */
  lemma {:induction false} GroupedHeaderFree(params: seq<Param>, title: string, current: seq<Param>)
    requires forall p :: p in current ==> !p.role.SectionHeader?
    ensures HeaderFree(Grouped(params, title, current))
    decreases |params|
  {
    if |params| > 0 {
      if params[0].role.SectionHeader? {
        GroupedHeaderFree(params[1..], params[0].keyword, []);
        assert Grouped(params, title, current) ==
          [ParamGroup(title, current)] + Grouped(params[1..], params[0].keyword, []);
      } else {
        GroupedHeaderFree(params[1..], title, current + [params[0]]);
      }
    }
  }

  /** Every group after the first is titled by a section header of `params`. */
  predicate TitledByHeaders(params: seq<Param>, groups: seq<ParamGroup>)
  {
    forall k :: 1 <= k < |groups| ==> HeaderTitled(params, groups[k].title)
  }

  /** The section titles after the first are keywords of section headers. */
  lemma {:induction false} GroupedTitles(params: seq<Param>, title: string, current: seq<Param>)
    ensures TitledByHeaders(params, Grouped(params, title, current))
    decreases |params|
  {
    if |params| > 0 {
      var r := Grouped(params, title, current);
      if params[0].role.SectionHeader? {
        GroupedTitles(params[1..], params[0].keyword, []);
        GroupedShape(params[1..], params[0].keyword, []);
        var rest := Grouped(params[1..], params[0].keyword, []);
        assert r == [ParamGroup(title, current)] + rest;
        forall k | 1 <= k < |r|
          ensures HeaderTitled(params, r[k].title)
        {
          assert r[k] == rest[k - 1];
          if k == 1 {
            assert params[0] in params;
          } else {
            assert HeaderTitled(params[1..], rest[k - 1].title);
            var p :| p in params[1..] && p.role.SectionHeader? && p.keyword == rest[k - 1].title;
            assert p in params;
          }
        }
      } else {
        GroupedTitles(params[1..], title, current + [params[0]]);
        var rest := Grouped(params[1..], title, current + [params[0]]);
        assert r == rest;
        forall k | 1 <= k < |r|
          ensures HeaderTitled(params, r[k].title)
        {
          assert HeaderTitled(params[1..], rest[k].title);
          var p :| p in params[1..] && p.role.SectionHeader? && p.keyword == rest[k].title;
          assert p in params;
        }
      }
    }
  }


  /** `PrefPanel.getSections(params, default_name)` */
  method GetSections(params: seq<Param>, defaultName: string) returns (sections: seq<ParamGroup>)
    ensures sections == Grouped(params, defaultName, [])
  {
    sections := [];
    var currentName := defaultName;
    var currentParams := [];
    var i := 0;
    while i < |params|
      invariant 0 <= i <= |params|
      invariant sections + Grouped(params[i..], currentName, currentParams) == Grouped(params, defaultName, [])
    {
      var param := params[i];
      assert params[i..][1..] == params[i + 1..];
      if param.role.SectionHeader? {
        assert sections + [ParamGroup(currentName, currentParams)] + Grouped(params[i + 1..], param.keyword, [])
            == sections + Grouped(params[i..], currentName, currentParams);
        sections := sections + [ParamGroup(currentName, currentParams)];
        currentName := param.keyword;
        currentParams := [];
      } else {
        currentParams := currentParams + [param];
      }
      i := i + 1;
    }
    sections := sections + [ParamGroup(currentName, currentParams)];
  }

  // ---------------------------------------------------------------------
  // PrefPanel.getLocalAndGlobalParams

  /** The instance preferences, the class-wide preferences and the
      keywords already shown by a superclass. */
  datatype ParamSplit = ParamSplit(local: seq<Param>, global: seq<Param>, existing: set<string>)

  /** One pass of the loop in `getLocalAndGlobalParams`. */
  function SplitStep(acc: ParamSplit, p: Param): ParamSplit
  {
    if p.keyword in acc.existing then acc
    else if p.role.Superseded? then acc.(existing := acc.existing + {p.keyword})
    else if !IsVisible(p) then acc
    else if p.local then acc.(local := acc.local + [p])
    else acc.(global := acc.global + [p])
  }

  /** The split after the loop has seen `params`, starting with `existing`. */
  function SplitParams(params: seq<Param>, existing: set<string>): ParamSplit
  {
    if |params| == 0 then ParamSplit([], [], existing)
    else SplitStep(SplitParams(params[..|params| - 1], existing), params[|params| - 1])
  }

  /** The keywords of the superseded parameters. */
  function SupersededKeywords(params: seq<Param>): set<string>
  {
    set p | p in params && p.role.Superseded? :: p.keyword
  }

  /** Kept parameters are visible, come from `params`, were not already
      shown, and land on the side their `local` flag says. */
  predicate KeptSound(params: seq<Param>, existing: set<string>, r: ParamSplit)
  {
    (forall p :: p in r.local ==> p in params && IsVisible(p) && p.local && p.keyword !in existing) &&
    (forall p :: p in r.global ==> p in params && IsVisible(p) && !p.local && p.keyword !in existing)
  }

  lemma {:induction false} SplitParamsSound(params: seq<Param>, existing: set<string>)
    ensures KeptSound(params, existing, SplitParams(params, existing))
  {
    if |params| > 0 {
      var prefix := params[..|params| - 1];
      SplitParamsSound(prefix, existing);
      SplitParamsExisting(prefix, existing);
      assert forall q :: q in prefix ==> q in params;
    }
  }

  /** The keywords only grow, by those of the superseded parameters. */
  lemma {:induction false} SplitParamsExisting(params: seq<Param>, existing: set<string>)
    ensures SplitParams(params, existing).existing == existing + SupersededKeywords(params)
  {
    if |params| > 0 {
      var prefix := params[..|params| - 1];
      var p := params[|params| - 1];
      SplitParamsExisting(prefix, existing);
      assert params == prefix + [p];
      assert SupersededKeywords(params) == SupersededKeywords(prefix) +
        (if p.role.Superseded? then {p.keyword} else {});
    }
  }

  /** A visible parameter whose keyword never got marked is kept on its side. */
  predicate KeptComplete(params: seq<Param>, r: ParamSplit)
  {
    forall p :: p in params && IsVisible(p) && p.keyword !in r.existing ==>
      (p.local ==> p in r.local) && (!p.local ==> p in r.global)
  }

  lemma {:induction false} SplitParamsComplete(params: seq<Param>, existing: set<string>)
    ensures KeptComplete(params, SplitParams(params, existing))
  {
    if |params| > 0 {
      var prefix := params[..|params| - 1];
      var last := params[|params| - 1];
      SplitParamsComplete(prefix, existing);
      var acc := SplitParams(prefix, existing);
      var r := SplitParams(params, existing);
      assert acc.existing <= r.existing;
      assert forall q :: q in acc.local ==> q in r.local;
      assert forall q :: q in acc.global ==> q in r.global;
      forall q | q in params && IsVisible(q) && q.keyword !in r.existing
        ensures (q.local ==> q in r.local) && (!q.local ==> q in r.global)
      {
        if q != last {
          assert q in prefix;
        }
      }
    }
  }

  /** The kept parameters keep their order: each side never holds more
      than the parameters seen. */
  lemma {:induction false} SplitParamsLength(params: seq<Param>, existing: set<string>)
    ensures var r := SplitParams(params, existing); |r.local| + |r.global| <= |params|
  {
    if |params| > 0 {
      SplitParamsLength(params[..|params| - 1], existing);
    }
  }

  /** `PrefPanel.getLocalAndGlobalParams(params, existing_keywords)`; the
      caller's dictionary of keywords comes back as `existingOut`. */
  method GetLocalAndGlobalParams(params: seq<Param>, existing: set<string>)
    returns (local: seq<Param>, global: seq<Param>, existingOut: set<string>)
    ensures ParamSplit(local, global, existingOut) == SplitParams(params, existing)
  {
    local, global, existingOut := [], [], existing;
    var i := 0;
    while i < |params|
      invariant 0 <= i <= |params|
      invariant ParamSplit(local, global, existingOut) == SplitParams(params[..i], existing)
    {
      var param := params[i];
      assert params[..i + 1][..i] == params[..i];
      if param.keyword in existingOut {
      } else if param.role.Superseded? {
        existingOut := existingOut + {param.keyword};
      } else if !IsVisible(param) {
      } else if param.local {
        local := local + [param];
      } else {
        global := global + [param];
      }
      i := i + 1;
    }
    assert params[..i] == params;
  }
}
