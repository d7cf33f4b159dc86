/** How a major mode is chosen for a buffer: the emacs `-*- ... -*-`
    line, the bang path and the plugins' magic tests are asked in turn, an
    exact answer wins at once, and a generic answer is kept in case
    nothing better comes. Modes are named by their keyword. */
module Major {
  import opened Base
  import opened Strings

  /** The mode used when no plugin answers. */
  const FUNDAMENTAL := "Fundamental"

  /** `MajorModeMatch`: the chosen mode, the file's own variables, and
      whether the match is exact or only generic. */
  datatype ModeMatch = ModeMatch(view: string, vars: map<string, string>, exact: bool, editable: bool)

  /** `MajorModeMatch(view, generic, exact, editable)` */
  function NewMatch(view: string, generic: bool, exact: bool, editable: bool): (r: ModeMatch)
    ensures r.view == view && r.vars == map[]
    ensures r.exact <==> !generic
    ensures r.editable
  {
    ModeMatch(view, map[], !generic, true)
  }

  /** The `exact` and `editable` arguments make no difference. */
  lemma NewMatchIgnoresFlags(view: string, generic: bool, exact: bool, editable: bool)
    ensures NewMatch(view, generic, exact, editable) == NewMatch(view, generic, true, true)
  {
  }

  // ---------------------------------------------------------------------
  // The emacs mode line

  /** The groups of the emacs mode-line pattern that the code reads:
      group 2 (the `mode:` form), group 3 (the bare form) and group 5 (the
      variables after the first `;`). */
  datatype EmacsGroups = EmacsGroups(modeForm: Option<string>, bareForm: Option<string>, varText: Option<string>)

  /** A `name:val` piece holds exactly one colon. */
  predicate WellFormedPair(s: string)
  {
    |Split(s, ':')| == 2
  }

  /** The variables read from the `;`-separated `pieces` after `vars`:
      blank pieces are skipped, and the first piece that is not a
      `name:val` pair ends the reading. */
  function ReadVars(pieces: seq<string>, vars: map<string, string>): map<string, string>
  {
    if |pieces| == 0 then vars
    else
      var s := Strip(pieces[0]);
      if s == "" then ReadVars(pieces[1..], vars)
      else if !WellFormedPair(s) then vars
      else
        var parts := Split(s, ':');
        ReadVars(pieces[1..], vars[Strip(parts[0]) := Strip(parts[1])])
  }

  /** A malformed piece stops the reading: what comes after it is lost and
      what came before it is kept. */
  lemma {:induction false} ReadVarsStops(pieces: seq<string>, vars: map<string, string>, k: nat)
    requires k < |pieces| && Strip(pieces[k]) != "" && !WellFormedPair(Strip(pieces[k]))
    ensures ReadVars(pieces, vars) == ReadVars(pieces[..k], vars)
  {
    var head := pieces[..k];
    if k == 0 {
      assert head == [];
      assert ReadVars(pieces, vars) == vars;
    } else {
      var rest := pieces[1..];
      assert rest[..k - 1] == head[1..] && head[0] == pieces[0] && rest[k - 1] == pieces[k];
      var s := Strip(pieces[0]);
      if s == "" {
        ReadVarsStops(rest, vars, k - 1);
        assert ReadVars(pieces, vars) == ReadVars(rest, vars);
        assert ReadVars(head, vars) == ReadVars(head[1..], vars);
      } else if WellFormedPair(s) {
        var parts := Split(s, ':');
        var next := vars[Strip(parts[0]) := Strip(parts[1])];
        ReadVarsStops(rest, next, k - 1);
        assert ReadVars(pieces, vars) == ReadVars(rest, next);
        assert ReadVars(head, vars) == ReadVars(head[1..], next);
      } else {
        assert ReadVars(pieces, vars) == vars;
        assert ReadVars(head, vars) == vars;
      }
    }
  }

  /** Names and values are trimmed and hold no `;` or `:`. */
  predicate CleanVars(vars: map<string, string>)
  {
    forall n :: n in vars ==> CleanPair(n, vars[n])
  }

  predicate CleanPair(name: string, value: string)
  {
    Trimmed(name) && Trimmed(value) && ';' !in name && ':' !in name && ':' !in value && ';' !in value
  }

  /** The name and value read from one `name:val` piece are clean. */
  lemma PairClean(s: string)
    requires ';' !in s && WellFormedPair(s)
    ensures var parts := Split(s, ':'); CleanPair(Strip(parts[0]), Strip(parts[1]))
  {
    var parts := Split(s, ':');
    SplitOmits(s, ':', ';');
    StripLacks(parts[0], ':');
    StripLacks(parts[1], ':');
    StripLacks(parts[0], ';');
    StripLacks(parts[1], ';');
  }

  lemma StripLacks(s: string, c: char)
    requires c !in s
    ensures c !in Strip(s)
  {
    var t := LStrip(s);
    assert t == s[|s| - |t|..];
    assert c !in t;
    var r := RStrip(t);
    assert r == t[..|r|];
  }

  /** A character missing from the text is missing from its pieces. */
  lemma {:induction false} SplitOmits(s: string, sep: char, c: char)
    requires c !in s
    ensures forall i :: 0 <= i < |Split(s, sep)| ==> c !in Split(s, sep)[i]
  {
    if |s| > 0 {
      assert c !in s[1..];
      SplitOmits(s[1..], sep, c);
    }
  }

  lemma {:induction false} ReadVarsClean(pieces: seq<string>, vars: map<string, string>)
    requires CleanVars(vars)
    requires forall i :: 0 <= i < |pieces| ==> ';' !in pieces[i]
    ensures CleanVars(ReadVars(pieces, vars))
  {
    if |pieces| > 0 {
      var s := Strip(pieces[0]);
      StripLacks(pieces[0], ';');
      if s == "" {
        ReadVarsClean(pieces[1..], vars);
      } else if WellFormedPair(s) {
        var parts := Split(s, ':');
        PairClean(s);
        ReadVarsClean(pieces[1..], vars[Strip(parts[0]) := Strip(parts[1])]);
      }
    }
  }

  /** The variables `parseEmacs` reads from group 5. */
  function EmacsVars(varText: Option<string>): map<string, string>
  {
    if varText.None? || varText.value == "" then map[] else ReadVars(Split(varText.value, ';'), map[])
  }

  /** The variables read from the mode line are clean `name:val` pairs. */
  lemma EmacsVarsClean(varText: Option<string>)
    ensures CleanVars(EmacsVars(varText))
  {
    if varText.Some? && varText.value != "" {
      ReadVarsClean(Split(varText.value, ';'), map[]);
    }
  }

  /** What `parseEmacs` returns for the groups of the pattern's match. */
  function EmacsMode(m: Option<EmacsGroups>): (r: Option<(string, map<string, string>)>)
    ensures m.None? ==> r.None?
    ensures r.Some? ==> r.value.1 == EmacsVars(m.value.varText)
    ensures m.Some? && m.value.modeForm.Some? && m.value.modeForm.value != "" ==>
              r.Some? && r.value.0 == m.value.modeForm.value
    ensures m.Some? && (m.value.modeForm.None? || m.value.modeForm.value == "") &&
            m.value.bareForm.Some? && m.value.bareForm.value != "" ==>
              r.Some? && r.value.0 == m.value.bareForm.value
  {
    if m.None? then None
    else
      var vars := EmacsVars(m.value.varText);
      if m.value.modeForm.Some? && m.value.modeForm.value != "" then Some((m.value.modeForm.value, vars))
      else if m.value.bareForm.Some? && m.value.bareForm.value != "" then Some((m.value.bareForm.value, vars))
      else None
  }

  /** The loop of `parseEmacs` over the `;`-separated pieces. */
  method ParseVars(varText: string) returns (vars: map<string, string>)
    ensures vars == EmacsVars(Some(varText))
  {
    vars := map[];
    if varText == "" {
      return;
    }
    var pieces := Split(varText, ';');
    var i := 0;
    while i < |pieces|
      invariant 0 <= i <= |pieces|
      invariant ReadVars(pieces[i..], vars) == ReadVars(pieces, map[])
    {
      var s := Strip(pieces[i]);
      assert pieces[i..][1..] == pieces[i + 1..];
      if s != "" {
        var parts := Split(s, ':');
        if |parts| != 2 {
          return;
        }
        vars := vars[Strip(parts[0]) := Strip(parts[1])];
      }
      i := i + 1;
    }
  }

  /** `parseEmacs(line)`, given the match of its pattern on the line. */
  method ParseEmacs(m: Option<EmacsGroups>) returns (r: Option<(string, map<string, string>)>)
    ensures r == EmacsMode(m)
  {
    if m.None? {
      return None;
    }
    var vars: map<string, string> := map[];
    if m.value.varText.Some? && m.value.varText.value != "" {
      vars := ParseVars(m.value.varText.value);
    }
    if m.value.modeForm.Some? && m.value.modeForm.value != "" {
      r := Some((m.value.modeForm.value, vars));
    } else if m.value.bareForm.Some? && m.value.bareForm.value != "" {
      r := Some((m.value.bareForm.value, vars));
    } else {
      r := None;
    }
  }

  // ---------------------------------------------------------------------
  // One matcher plugin

  /** A matcher plugin: the keywords of its modes, its emacs aliases, and
      its answers to the scans whose patterns or file contents are not
      part of this model. */
  datatype Plugin = Plugin(
    modes: seq<string>,
    emacsAliases: seq<(string, string)>,
    shell: Option<ModeMatch>,
    magic: Option<ModeMatch>,
    urlInfo: Option<ModeMatch>,
    filename: Option<ModeMatch>)

  /** The first keyword equal to `name` ignoring case. */
  function FirstKeyword(keywords: seq<string>, name: string): (r: Option<string>)
    ensures r.Some? ==> r.value in keywords && Lower(r.value) == Lower(name)
    ensures r.None? <==> forall k :: k in keywords ==> Lower(k) != Lower(name)
  {
    if |keywords| == 0 then None
    else if Lower(name) == Lower(keywords[0]) then Some(keywords[0])
    else FirstKeyword(keywords[1..], name)
  }

  /** The mode of the first alias equal to `name` ignoring case. */
  function FirstAlias(aliases: seq<(string, string)>, name: string): (r: Option<string>)
    ensures r.Some? ==> exists a :: a in aliases && Lower(a.0) == Lower(name) && a.1 == r.value
    ensures r.None? <==> forall a :: a in aliases ==> Lower(a.0) != Lower(name)
  {
    if |aliases| == 0 then None
    else if Lower(name) == Lower(aliases[0].0) then Some(aliases[0].1)
    else FirstAlias(aliases[1..], name)
  }

  /** `scanEmacs(emacsmode, vars)`: an exact match on a mode keyword, else
      on an emacs alias, compared ignoring case. */
  function ScanEmacs(p: Plugin, emacsMode: string): (r: Option<ModeMatch>)
    ensures r.Some? ==> r.value.exact
    ensures FirstKeyword(p.modes, emacsMode).Some? ==> r == Some(NewMatch(FirstKeyword(p.modes, emacsMode).value, false, true, true))
    ensures FirstKeyword(p.modes, emacsMode).None? ==>
              (r.Some? <==> exists a :: a in p.emacsAliases && Lower(a.0) == Lower(emacsMode))
  {
    var k := FirstKeyword(p.modes, emacsMode);
    if k.Some? then Some(NewMatch(k.value, false, true, true))
    else
      var a := FirstAlias(p.emacsAliases, emacsMode);
      if a.Some? then Some(NewMatch(a.value, false, true, true)) else None
  }

  // ---------------------------------------------------------------------
  // Choosing among the answers

  /** The answers the plugins give in one scan, in plugin order. */
  function Present(answers: seq<Option<ModeMatch>>): (r: seq<ModeMatch>)
    ensures forall m :: m in r ==> Some(m) in answers
  {
    if |answers| == 0 then []
    else Present(answers[..|answers| - 1]) + if answers[|answers| - 1].Some? then [answers[|answers| - 1].value] else []
  }

  function EmacsAnswers(plugins: seq<Plugin>, emacs: Option<(string, map<string, string>)>): seq<Option<ModeMatch>>
  {
    if emacs.None? then [] else seq(|plugins|, i requires 0 <= i < |plugins| => ScanEmacs(plugins[i], emacs.value.0))
  }

  function ShellAnswers(plugins: seq<Plugin>, bangpath: Option<string>): seq<Option<ModeMatch>>
  {
    if bangpath.None? then [] else seq(|plugins|, i requires 0 <= i < |plugins| => plugins[i].shell)
  }

  function MagicAnswers(plugins: seq<Plugin>): seq<Option<ModeMatch>>
  {
    seq(|plugins|, i requires 0 <= i < |plugins| => plugins[i].magic)
  }

  /** The first exact answer, if any. */
  function FirstExact(answers: seq<ModeMatch>): (r: Option<nat>)
    ensures r.Some? ==> r.value < |answers| && answers[r.value].exact &&
                        forall j :: 0 <= j < r.value ==> !answers[j].exact
    ensures r.None? <==> forall j :: 0 <= j < |answers| ==> !answers[j].exact
  {
    if |answers| == 0 then None
    else if answers[0].exact then Some(0)
    else
      var r := FirstExact(answers[1..]);
      if r.Some? then Some(r.value + 1) else None
  }

  /** The mode `scanBuffer` picks from all answers in the order asked:
      the first exact one, else the first generic one, else Fundamental. */
  function Chosen(answers: seq<ModeMatch>): (view: string)
    ensures FirstExact(answers).Some? ==> view == answers[FirstExact(answers).value].view
    ensures FirstExact(answers).None? && |answers| > 0 ==> view == answers[0].view
    ensures |answers| == 0 ==> view == FUNDAMENTAL
  {
    var e := FirstExact(answers);
    if e.Some? then answers[e.value].view
    else if |answers| > 0 then answers[0].view
    else FUNDAMENTAL
  }

  /** The line the emacs pattern is matched on, and the bang path: with a
      `#!` first line, the first two lines and the first line; otherwise
      the first line and no bang path. */
  function ModeLines(line0: string, line1: string): (r: (string, Option<string>))
    ensures |line0| >= 2 && line0[..2] == "#!" ==> r == (line0 + line1, Some(line0))
    ensures !(|line0| >= 2 && line0[..2] == "#!") ==> r == (line0, None)
  {
    if |line0| >= 2 && line0[..2] == "#!" then (line0 + line1, Some(line0)) else (line0, None)
  }

  /** All answers `scanBuffer` collects, stage after stage. */
  function BufferAnswers(plugins: seq<Plugin>, emacs: Option<(string, map<string, string>)>, bangpath: Option<string>): seq<ModeMatch>
  {
    Present(EmacsAnswers(plugins, emacs)) + Present(ShellAnswers(plugins, bangpath)) + Present(MagicAnswers(plugins))
  }

  lemma {:induction false} PresentPrefix(answers: seq<Option<ModeMatch>>, i: nat)
    requires i < |answers|
    ensures Present(answers[..i + 1]) == Present(answers[..i]) + if answers[i].Some? then [answers[i].value] else []
  {
    assert answers[..i + 1][..i] == answers[..i];
  }

  /** One stage of `scanBuffer`: the plugins' answers are walked in order,
      an exact one is returned at once and generic ones are collected. */
  method ScanStage(answers: seq<Option<ModeMatch>>, generics: seq<ModeMatch>)
    returns (exact: Option<string>, collected: seq<ModeMatch>)
    requires forall j :: 0 <= j < |generics| ==> !generics[j].exact
    ensures var all := generics + Present(answers);
            exact.Some? ==> FirstExact(all).Some? && exact.value == all[FirstExact(all).value].view
    ensures exact.None? ==> collected == generics + Present(answers) && FirstExact(collected).None?
  {
    collected := generics;
    var i := 0;
    while i < |answers|
      invariant 0 <= i <= |answers|
      invariant collected == generics + Present(answers[..i])
      invariant forall j :: 0 <= j < |collected| ==> !collected[j].exact
    {
      PresentPrefix(answers, i);
      var best := answers[i];
      if best.Some? {
        if best.value.exact {
          var all := generics + Present(answers);
          PresentAppend(answers, i);
          assert all[..|collected| + 1] == collected + [best.value];
          assert FirstExact(all) == Some(|collected|) by {
            FirstExactAt(all, |collected|);
          }
          return Some(best.value.view), collected;
        }
        collected := collected + [best.value];
      }
      i := i + 1;
    }
    assert answers[..i] == answers;
    exact := None;
  }

  /** `Present` of the whole list starts with `Present` of a prefix. */
  lemma {:induction false} PresentAppend(answers: seq<Option<ModeMatch>>, i: nat)
    requires i < |answers|
    ensures Present(answers[..i + 1]) <= Present(answers)
    decreases |answers| - i
  {
    if i + 1 < |answers| {
      PresentAppend(answers, i + 1);
      PresentPrefix(answers, i + 1);
    } else {
      assert answers[..i + 1] == answers;
    }
  }

  lemma FirstExactAt(answers: seq<ModeMatch>, k: nat)
    requires k < |answers| && answers[k].exact && forall j :: 0 <= j < k ==> !answers[j].exact
    ensures FirstExact(answers) == Some(k)
  {
    var r := FirstExact(answers);
    assert r.Some?;
    assert !(r.value < k);
    assert !(k < r.value);
  }

  /** `scanBuffer(buffer)`, given the first two lines of the buffer and the
      emacs pattern's match on any line. */
  method ScanBuffer(plugins: seq<Plugin>, line0: string, line1: string, emacsMatch: string -> Option<EmacsGroups>)
    returns (view: string)
    ensures var lines := ModeLines(line0, line1);
            view == Chosen(BufferAnswers(plugins, EmacsMode(emacsMatch(lines.0)), lines.1))
  {
    var lines := ModeLines(line0, line1);
    var emacs := ParseEmacs(emacsMatch(lines.0));
    view := ScanStages(EmacsAnswers(plugins, emacs), ShellAnswers(plugins, lines.1), MagicAnswers(plugins));
  }

  /** The three stages of `scanBuffer`: emacs, shell, magic. */
  method ScanStages(emacs: seq<Option<ModeMatch>>, shell: seq<Option<ModeMatch>>, magic: seq<Option<ModeMatch>>)
    returns (view: string)
    ensures view == Chosen(Present(emacs) + Present(shell) + Present(magic))
  {
    ghost var e, sh, m := Present(emacs), Present(shell), Present(magic);
    var exact, generics := ScanStage(emacs, []);
    assert [] + e == e;
    if exact.Some? {
      ChosenPrefix(e, sh + m);
      AppendAssoc(e, sh, m);
      return exact.value;
    }
    exact, generics := ScanStage(shell, generics);
    if exact.Some? {
      ChosenPrefix(e + sh, m);
      return exact.value;
    }
    exact, generics := ScanStage(magic, generics);
    if exact.Some? {
      return exact.value;
    }
    if |generics| > 0 {
      view := generics[0].view;
    } else {
      view := FUNDAMENTAL;
    }
  }

  /** Once a prefix of the answers holds an exact one, the answers after
      it do not change the choice. */
  lemma ChosenPrefix(a: seq<ModeMatch>, b: seq<ModeMatch>)
    requires FirstExact(a).Some?
    ensures Chosen(a + b) == a[FirstExact(a).value].view
  {
    ExactInPrefix(a, b);
    assert (a + b)[FirstExact(a).value] == a[FirstExact(a).value];
  }

  /** The first exact answer of a prefix is the first exact answer of the
      whole list. */
  lemma ExactInPrefix(a: seq<ModeMatch>, b: seq<ModeMatch>)
    requires FirstExact(a).Some?
    ensures FirstExact(a + b) == FirstExact(a)
  {
    var k := FirstExact(a).value;
    assert (a + b)[k] == a[k];
    FirstExactAt(a + b, k);
  }

  // ---------------------------------------------------------------------
  // Scanning by URL

  /** What `scanURL` returns: a mode, or the list of generic matches. */
  datatype UrlChoice = View(view: string) | Generics(matches: seq<ModeMatch>)

  /** The URL answers come before the filename answers; the first exact
      one is the view, and without one all answers are generic. */
  function UrlChosen(plugins: seq<Plugin>): (r: UrlChoice)
    ensures var all := Present(seq(|plugins|, i requires 0 <= i < |plugins| => plugins[i].urlInfo)) +
                       Present(seq(|plugins|, i requires 0 <= i < |plugins| => plugins[i].filename));
            (FirstExact(all).Some? ==> r == View(all[FirstExact(all).value].view)) &&
            (FirstExact(all).None? ==> r == Generics(all) && forall m :: m in r.matches ==> !m.exact)
  {
    var all := Present(seq(|plugins|, i requires 0 <= i < |plugins| => plugins[i].urlInfo)) +
               Present(seq(|plugins|, i requires 0 <= i < |plugins| => plugins[i].filename));
    var e := FirstExact(all);
    if e.Some? then View(all[e.value].view) else Generics(all)
  }

  /** `scanURL(url)`, given each plugin's answers for the URL and for its
      path. */
  method ScanUrl(plugins: seq<Plugin>) returns (r: UrlChoice)
    ensures r == UrlChosen(plugins)
  {
    var urlAnswers := seq(|plugins|, i requires 0 <= i < |plugins| => plugins[i].urlInfo);
    var fileAnswers := seq(|plugins|, i requires 0 <= i < |plugins| => plugins[i].filename);
    var urlPart := Present(urlAnswers);
    var filePart := Present(fileAnswers);
    var exact, generics := ScanStage(urlAnswers, []);
    assert [] + urlPart == urlPart;
    if exact.Some? {
      ExactInPrefix(urlPart, filePart);
      return View(exact.value);
    }
    exact, generics := ScanStage(fileAnswers, generics);
    if exact.Some? {
      return View(exact.value);
    }
    r := Generics(generics);
  }
}
