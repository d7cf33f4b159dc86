/** The minibuffer's input handling: completion over a fixed list, the
    conversion of typed text to integers and integer ranges (with MSW-style
    `1234h` hex numbers), the result a text minibuffer reports, and the
    composite minibuffer that chains several of them. Python's `eval` of the
    rewritten text is a parameter; the widgets are not modelled. */
module MinibufferInput {
  import opened Base
  import opened Strings

  // ---------------------------------------------------------------------
  // Completion on a static list

  /** The items of `items` that contain `text`, in their order. */
  function Completions(items: seq<string>, text: string): seq<string>
  {
    Filter(items, item => Find(item, text) >= 0)
  }

  /** Exactly the items containing the text are offered: each one offered
      contains it and comes from the list, and none containing it is left
      out. */
  lemma CompletionsSpec(items: seq<string>, text: string)
    ensures forall i :: 0 <= i < |Completions(items, text)| ==>
              Contains(Completions(items, text)[i], text) && Completions(items, text)[i] in items
    ensures forall k :: 0 <= k < |items| && Contains(items[k], text) ==> items[k] in Completions(items, text)
  {
    FilterSound(items, item => Find(item, text) >= 0);
    forall k | 0 <= k < |items| && Contains(items[k], text)
      ensures items[k] in Completions(items, text)
    {
      FilterComplete(items, item => Find(item, text) >= 0, k);
    }
  }

  /** The list's order is kept: completing over two lists one after the
      other is completing over each. */
  lemma CompletionsAppend(a: seq<string>, b: seq<string>, text: string)
    ensures Completions(a + b, text) == Completions(a, text) + Completions(b, text)
  {
    FilterAppend(a, b, item => Find(item, text) >= 0);
  }

  /** `StaticListCompletionMinibuffer.complete(text)`. */
  method Complete(sorted: seq<string>, text: string) returns (found: seq<string>)
    ensures found == Completions(sorted, text)
  {
    found := [];
    for k := 0 to |sorted|
      invariant found == Completions(sorted[..k], text)
    {
      var item := sorted[k];
      assert sorted[..k + 1][..k] == sorted[..k];
      if Find(item, text) >= 0 {
        found := found + [item];
      }
    }
    assert sorted[..|sorted|] == sorted;
  }

  // ---------------------------------------------------------------------
  // MSW hex numbers

  predicate IsHexChar(c: char)
  {
    '0' <= c <= '9' || 'a' <= c <= 'f' || 'A' <= c <= 'F'
  }

  /** The length of the run of hex digits at the start of `s`. */
  function HexRun(s: string): (n: nat)
    ensures n <= |s|
    ensures forall i :: 0 <= i < n ==> IsHexChar(s[i])
    ensures n < |s| ==> !IsHexChar(s[n])
  {
    if |s| == 0 || !IsHexChar(s[0]) then 0 else 1 + HexRun(s[1..])
  }

  /** `msw_hex.sub(...)` with the pattern `[0-9a-fA-F]+h`: every run of hex
      digits followed by `h` becomes `0x` and the run. A match can only
      begin where a run begins, and a run not followed by `h` is kept. */
  function MswHex(s: string): string
    decreases |s|
  {
    if |s| == 0 then ""
    else
      var n := HexRun(s);
      if n == 0 then [s[0]] + MswHex(s[1..])
      else if n < |s| && s[n] == 'h' then "0x" + s[..n] + MswHex(s[n + 1..])
      else s[..n] + MswHex(s[n..])
  }

  /** Text without an `h` is left alone. */
  lemma {:induction false} MswHexNoH(s: string)
    requires forall i :: 0 <= i < |s| ==> s[i] != 'h'
    ensures MswHex(s) == s
    decreases |s|
  {
    if |s| > 0 {
      var n := HexRun(s);
      if n == 0 {
        var t := s[1..];
        assert MswHex(s) == [s[0]] + MswHex(t);
        assert forall i :: 0 <= i < |t| ==> t[i] == s[i + 1];
        MswHexNoH(t);
        assert [s[0]] + t == s;
      } else {
        var t := s[n..];
        assert !(n < |s| && s[n] == 'h');
        assert MswHex(s) == s[..n] + MswHex(t);
        assert forall i :: 0 <= i < |t| ==> t[i] == s[i + n];
        MswHexNoH(t);
        assert s[..n] + t == s;
      }
    }
  }

  lemma {:induction false} HexRunOfRun(run: string, rest: string)
    requires forall i :: 0 <= i < |run| ==> IsHexChar(run[i])
    requires |rest| > 0 && !IsHexChar(rest[0])
    ensures HexRun(run + rest) == |run|
    decreases |run|
  {
    if |run| > 0 {
      var t := run[1..];
      assert forall i :: 0 <= i < |t| ==> t[i] == run[i + 1];
      HexRunOfRun(t, rest);
      assert (run + rest)[1..] == t + rest;
    } else {
      assert run + rest == rest;
    }
  }

  /** A hex number written `run` followed by `h` becomes `0x` and the run;
      the rest of the text is rewritten on its own. */
  lemma MswHexToken(run: string, rest: string)
    requires |run| > 0 && forall i :: 0 <= i < |run| ==> IsHexChar(run[i])
    ensures MswHex(run + "h" + rest) == "0x" + run + MswHex(rest)
  {
    var s := run + "h" + rest;
    HexRunOfRun(run, "h" + rest);
    assert s == run + ("h" + rest);
    assert s[..|run|] == run && s[|run|] == 'h' && s[|run| + 1..] == rest;
  }

  /** `IntMinibuffer.convert`: the rewritten text handed to `eval`, whose
      outcome (a number, or an exception as `None`) is `eval`'s answer. */
  function IntConvert(text: string, eval: string -> Option<int>): Option<int>
  {
    eval(MswHex(text))
  }

  // ---------------------------------------------------------------------
  // Ranges

  /** Converting each piece in turn; the first failure ends it. */
  function ConvertAll(vals: seq<string>, eval: string -> Option<int>): (r: Option<seq<int>>)
  {
    if |vals| == 0 then Some([])
    else
      match ConvertAll(vals[..|vals| - 1], eval)
      case None => None
      case Some(init) =>
        match IntConvert(vals[|vals| - 1], eval)
        case None => None
        case Some(v) => Some(init + [v])
  }

  /** All pieces convert exactly when each does, and then each number is
      its piece's number. */
  lemma {:induction false} ConvertAllSpec(vals: seq<string>, eval: string -> Option<int>)
    ensures ConvertAll(vals, eval).Some? <==> forall i :: 0 <= i < |vals| ==> IntConvert(vals[i], eval).Some?
    ensures ConvertAll(vals, eval).Some? ==>
              |ConvertAll(vals, eval).value| == |vals| &&
              forall i :: 0 <= i < |vals| ==> ConvertAll(vals, eval).value[i] == IntConvert(vals[i], eval).value
  {
    if |vals| > 0 {
      var init := vals[..|vals| - 1];
      ConvertAllSpec(init, eval);
      assert forall i :: 0 <= i < |init| ==> init[i] == vals[i];
    }
  }

  /** `IntRangeMinibuffer.convert`: the comma-separated values, accepted
      only when there are exactly two. */
  function RangeOf(text: string, eval: string -> Option<int>): Option<seq<int>>
  {
    match ConvertAll(Split(text, ','), eval)
    case None => None
    case Some(pair) => if |pair| == 2 then Some(pair) else None
  }

  /** A range is read exactly when the text has two comma-separated pieces
      that both convert, and then it is their two numbers. */
  lemma RangeOfSpec(text: string, eval: string -> Option<int>)
    ensures var pieces := Split(text, ',');
            RangeOf(text, eval).Some? <==>
              |pieces| == 2 && IntConvert(pieces[0], eval).Some? && IntConvert(pieces[1], eval).Some?
    ensures var pieces := Split(text, ',');
            RangeOf(text, eval).Some? ==>
              RangeOf(text, eval).value == [IntConvert(pieces[0], eval).value, IntConvert(pieces[1], eval).value]
  {
    var pieces := Split(text, ',');
    ConvertAllSpec(pieces, eval);
    var c := ConvertAll(pieces, eval);
    if c.Some? && |c.value| == 2 {
      assert c.value == [c.value[0], c.value[1]];
    }
  }

  /** Text without a comma is never a range. */
  lemma RangeNeedsComma(text: string, eval: string -> Option<int>)
    requires forall i :: 0 <= i < |text| ==> text[i] != ','
    ensures RangeOf(text, eval).None?
  {
    SplitNoSep(text, ',');
    ConvertAllSpec(Split(text, ','), eval);
  }

  /** `IntRangeMinibuffer.convert` as the loop it is. */
  method RangeConvert(text: string, eval: string -> Option<int>) returns (r: Option<seq<int>>)
    ensures r == RangeOf(text, eval)
  {
    var vals := Split(text, ',');
    var pair := [];
    for k := 0 to |vals|
      invariant ConvertAll(vals[..k], eval) == Some(pair)
    {
      assert vals[..k + 1][..k] == vals[..k];
      var v := IntConvert(vals[k], eval);
      if v.None? {
        assert ConvertAll(vals[..k + 1], eval) == None;
        ConvertNoneExtends(vals, k + 1, eval);
        return None;
      }
      pair := pair + [v.value];
    }
    assert vals[..|vals|] == vals;
    if |pair| == 2 {
      return Some(pair);
    }
    return None;
  }

  /** A failed prefix makes the whole conversion fail. */
  lemma {:induction false} ConvertNoneExtends(vals: seq<string>, k: nat, eval: string -> Option<int>)
    requires k <= |vals| && ConvertAll(vals[..k], eval).None?
    ensures ConvertAll(vals, eval).None?
    decreases |vals| - k
  {
    if k < |vals| {
      assert vals[..k + 1][..k] == vals[..k];
      ConvertNoneExtends(vals, k + 1, eval);
    } else {
      assert vals[..k] == vals;
    }
  }

  // ---------------------------------------------------------------------
  // A text minibuffer's result

  /** What `getResult` returns, and the status-bar message it shows. */
  datatype Answer<T> = Answer(value: Option<T>, error: Option<string>, status: Option<string>)

  /** `TextMinibuffer.getResult(show_error)` for a minibuffer whose
      conversion is `convert` and whose error message is `message`. */
  function GetResult<T>(text: string, convert: string -> Option<T>, message: string, showError: bool): (r: Answer<T>)
    ensures r.value.Some? <==> r.error.None?
    ensures r.value.Some? <==> convert(text).Some?
    ensures r.value.Some? ==> r.value.value == convert(text).value
    ensures r.error.Some? ==> r.error.value == message
    ensures r.status.Some? <==> r.error.Some? && showError
    ensures r.status.Some? ==> r.status == r.error
  {
    match convert(text)
    case Some(v) => Answer(Some(v), None, None)
    case None => Answer(None, Some(message), if showError then Some(message) else None)
  }

  // ---------------------------------------------------------------------
  // The composite minibuffer

  /** One part of a composite minibuffer: its kind and its label (`None`
      keeps the kind's own label). */
  datatype Part = Part(kind: string, prompt: Option<string>)

  datatype PartsResult = IndexError | Parts(parts: seq<Part>)

  /** `MultiMinibuffer.__init__`: the kinds paired with the labels; without
      labels every part keeps its own. */
  function MultiInfo(multis: seq<string>, labels: Option<seq<Option<string>>>): (r: PartsResult)
    ensures r.IndexError? <==> labels.Some? && |labels.value| != |multis|
    ensures r.Parts? ==> |r.parts| == |multis|
    ensures r.Parts? ==> forall i :: 0 <= i < |r.parts| ==> r.parts[i].kind == multis[i]
    ensures r.Parts? && labels.None? ==> forall i :: 0 <= i < |r.parts| ==> r.parts[i].prompt.None?
    ensures r.Parts? && labels.Some? ==> forall i :: 0 <= i < |r.parts| ==> r.parts[i].prompt == labels.value[i]
  {
    var ls := if labels.None? then seq(|multis|, _ => None) else labels.value;
    if |ls| != |multis| then IndexError
    else Parts(seq(|multis|, i requires 0 <= i < |multis| => Part(multis[i], ls[i])))
  }

  /** How `finished` ends: the focus goes to the first part whose result
      had an error, or the action is performed on all the results. */
  datatype Finish<T> = FocusOn(index: nat) | Perform(results: seq<Option<T>>)

  /** An error counts when it is a non-empty message. */
  predicate Failed<T>(a: Answer<T>)
  {
    a.error.Some? && a.error.value != ""
  }

  /** `MultiMinibuffer.finished` over the parts' answers, from part `k` on. */
  function FinishFrom<T>(answers: seq<Answer<T>>, k: nat): (r: Finish<T>)
    requires k <= |answers|
    decreases |answers| - k
  {
    if k == |answers| then Perform(seq(|answers|, i requires 0 <= i < |answers| => answers[i].value))
    else if Failed(answers[k]) then FocusOn(k)
    else FinishFrom(answers, k + 1)
  }

  /** The focus moves to the first failed part; the action runs only when
      no part failed, on every part's value in order. */
  lemma {:induction false} FinishFromSpec<T>(answers: seq<Answer<T>>, k: nat)
    requires k <= |answers|
    ensures FinishFrom(answers, k).FocusOn? ==>
              var i := FinishFrom(answers, k).index;
              k <= i < |answers| && Failed(answers[i]) && forall j :: k <= j < i ==> !Failed(answers[j])
    ensures FinishFrom(answers, k).Perform? <==> forall j :: k <= j < |answers| ==> !Failed(answers[j])
    ensures FinishFrom(answers, k).Perform? ==>
              |FinishFrom(answers, k).results| == |answers| &&
              forall j :: 0 <= j < |answers| ==> FinishFrom(answers, k).results[j] == answers[j].value
    decreases |answers| - k
  {
    if k < |answers| && !Failed(answers[k]) {
      FinishFromSpec(answers, k + 1);
    }
  }

  /** A part of a composite minibuffer and the part that takes the focus
      after it. */
  class SubMinibuffer {
    const kind: string
    const prompt: Option<string>
    var nextFocus: SubMinibuffer?

    constructor(kind: string, prompt: Option<string>)
      ensures this.kind == kind && this.prompt == prompt && nextFocus == null
    {
      this.kind := kind;
      this.prompt := prompt;
      this.nextFocus := null;
    }
  }

  /** `MultiMinibuffer`: its parts' description and the parts. */
  class MultiMinibuffer {
    const info: seq<Part>
    var minibuffers: seq<SubMinibuffer>

    /** The constructor builds the parts, as `__init__` does through
        `createWindow`. */
    constructor(info: seq<Part>)
      ensures this.info == info
      ensures |minibuffers| == |info|
      ensures Chained(minibuffers, info)
    {
      this.info := info;
      this.minibuffers := [];
      new;
      CreateWindow();
    }

    /** The parts follow `info` one for one, each part's focus passes to
        the next, and the last part passes it on to nothing. */
    static ghost predicate Chained(mbs: seq<SubMinibuffer>, info: seq<Part>)
      reads set i | 0 <= i < |mbs| :: mbs[i]
      requires |mbs| == |info|
    {
      (forall i :: 0 <= i < |mbs| ==> mbs[i].kind == info[i].kind && mbs[i].prompt == info[i].prompt) &&
      (forall i :: 0 <= i < |mbs| - 1 ==> mbs[i].nextFocus == mbs[i + 1]) &&
      (|mbs| > 0 ==> mbs[|mbs| - 1].nextFocus == null)
    }

    /** `MultiMinibuffer.createWindow`: one new part per entry of `info`,
        appended and chained. */
    method CreateWindow()
      modifies this
      ensures |minibuffers| == |old(minibuffers)| + |info|
      ensures minibuffers[..|old(minibuffers)|] == old(minibuffers)
      ensures forall i :: |old(minibuffers)| <= i < |minibuffers| ==> fresh(minibuffers[i])
      ensures Chained(minibuffers[|old(minibuffers)|..], info)
    {
      var made: seq<SubMinibuffer> := [];
      var last: SubMinibuffer? := null;
      for k := 0 to |info|
        invariant |made| == k
        invariant minibuffers == old(minibuffers) + made
        invariant forall i :: 0 <= i < k ==> fresh(made[i])
        invariant forall i :: 0 <= i < k ==> made[i].kind == info[i].kind && made[i].prompt == info[i].prompt
        invariant forall i :: 0 <= i < k - 1 ==> made[i].nextFocus == made[i + 1]
        invariant k == 0 ==> last == null
        invariant k > 0 ==> last == made[k - 1] && last.nextFocus == null
      {
        var mb := new SubMinibuffer(info[k].kind, info[k].prompt);
        minibuffers := minibuffers + [mb];
        made := made + [mb];
        if last != null {
          last.nextFocus := mb;
        }
        last := mb;
      }
      assert minibuffers[|old(minibuffers)|..] == made;
    }

    /** `MultiMinibuffer.finished`, given what each part's `getResult`
        answers: it returns where the focus goes or what is performed. */
    method Finished<T>(answers: seq<Answer<T>>) returns (r: Finish<T>)
      requires |answers| == |minibuffers|
      ensures r == FinishFrom(answers, 0)
    {
      var results: seq<Option<T>> := [];
      for k := 0 to |answers|
        invariant results == seq(k, i requires 0 <= i < k => answers[i].value)
        invariant FinishFrom(answers, 0) == FinishFrom(answers, k)
      {
        results := results + [answers[k].value];
        if Failed(answers[k]) {
          return FocusOn(k);
        }
      }
      return Perform(results);
    }
  }
}
