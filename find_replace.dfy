/** The literal find-and-replace service of the find bar: what the user
    types is turned into the searched text and the case flag, the text of
    a match is replaced with smart casing, the wildcard service fills the
    wildcards of the replacement with the matched groups, and the last
    find and replace strings are kept across sessions. */
module FindReplace {
  import opened Base
  import opened Strings

  /** `wx.stc.STC_FIND_MATCHCASE` */
  const STC_FIND_MATCHCASE := 4
  /** `wx.stc.STC_FIND_REGEXP` */
  const STC_FIND_REGEXP := 0x200000
  /** `wx.FR_DOWN` */
  const FR_DOWN := 1

  // ---------------------------------------------------------------------
  // Persistent storage of the last search

  /** The dictionary the find bar saves its strings in. */
  type Storage = map<string, string>

  const LAST_SEARCH := "last_search"
  const LAST_REPLACE := "last_replace"

  /** The stored string, or `''` when the key is missing. */
  function StoredOr(storage: Storage, key: string): string
  {
    if key in storage then storage[key] else ""
  }

  /** What `unserialize` reads back from what `serialize` wrote is what
      was saved, whatever else the storage holds. */
  lemma SerializeRoundTrip(storage: Storage, findUser: string, replaceUser: string)
    ensures var stored := storage[LAST_SEARCH := findUser][LAST_REPLACE := replaceUser];
            StoredOr(stored, LAST_SEARCH) == findUser && StoredOr(stored, LAST_REPLACE) == replaceUser
  {
    var stored := storage[LAST_SEARCH := findUser][LAST_REPLACE := replaceUser];
    assert LAST_SEARCH != LAST_REPLACE by { assert LAST_SEARCH[5] != LAST_REPLACE[5]; }
    assert stored[LAST_SEARCH] == findUser;
  }

  /** The search state shared by the find bar and its service. */
  class FindSettings {
    var matchCase: bool
    var smartCase: bool
    var find: string
    var findUser: string
    var replace: string
    var replaceUser: string

    constructor(matchCase: bool, smartCase: bool)
      ensures this.matchCase == matchCase && this.smartCase == smartCase
      ensures find == "" && findUser == "" && replace == "" && replaceUser == ""
    {
      this.matchCase := matchCase;
      this.smartCase := smartCase;
      find := "";
      findUser := "";
      replace := "";
      replaceUser := "";
    }

    /** `serialize(storage)`: the dictionary comes back updated. */
    method Serialize(storage: Storage) returns (stored: Storage)
      ensures StoredOr(stored, LAST_SEARCH) == findUser && StoredOr(stored, LAST_REPLACE) == replaceUser
      ensures forall k :: k in storage ==> k in stored
      ensures forall k :: k in stored && k != LAST_SEARCH && k != LAST_REPLACE ==> k in storage && stored[k] == storage[k]
    {
      stored := storage[LAST_SEARCH := findUser];
      stored := stored[LAST_REPLACE := replaceUser];
      SerializeRoundTrip(storage, findUser, replaceUser);
    }

    /** `unserialize(storage)`: a missing key reads as `''`. */
    method Unserialize(storage: Storage)
      modifies this`findUser, this`replaceUser
      ensures findUser == StoredOr(storage, LAST_SEARCH)
      ensures replaceUser == StoredOr(storage, LAST_REPLACE)
    {
      if LAST_SEARCH in storage {
        findUser := storage[LAST_SEARCH];
      } else {
        findUser := "";
      }
      if LAST_REPLACE in storage {
        replaceUser := storage[LAST_REPLACE];
      } else {
        replaceUser := "";
      }
    }
  }

  // ---------------------------------------------------------------------
  // Turning typed text into searched text

  predicate IsQuote(c: char) { c == '"' || c == '\'' }

  /** The value of a one-line Python string literal that is the whole
      text: the same quote at both ends and neither that quote nor a
      backslash inside; `None` when the text is anything else. */
  function LiteralValue(text: string): (r: Option<string>)
    ensures r.Some? ==> |text| >= 2 && r.value == text[1..|text| - 1]
  {
    if |text| >= 2 && IsQuote(text[0]) && text[|text| - 1] == text[0] &&
       forall i :: 1 <= i < |text| - 1 ==> text[i] != text[0] && text[i] != '\\'
    then Some(text[1..|text| - 1])
    else None
  }

  /** The text of `findTxt`, `None` and the empty text reading as `""`. */
  function TextOf(findTxt: Option<string>): string
  {
    if findTxt.None? then "" else findTxt.value
  }

  /** The searched text `expandSearchText` makes of what was typed: the
      value of a quoted literal, or the text as typed. */
  function Expanded(findTxt: Option<string>): string
  {
    var t := TextOf(findTxt);
    if |t| > 0 && IsQuote(t[0]) && LiteralValue(t).Some? then LiteralValue(t).value else t
  }

  /** Whether `expandSearchText` asks for a case-sensitive search. */
  predicate MatchCaseFor(findTxt: Option<string>, matchCase: bool)
  {
    var t := TextOf(findTxt);
    if |t| > 0 && IsQuote(t[0]) then true
    else if t != Lower(t) then true
    else matchCase
  }

  predicate HasUpper(s: string)
  {
    exists i :: 0 <= i < |s| && IsUpperChar(s[i])
  }

  /** A text differs from its lower-case form exactly when it has an
      upper-case letter. */
  lemma LowerChangesIffUpper(s: string)
    ensures s != Lower(s) <==> HasUpper(s)
  {
    if HasUpper(s) {
      var i :| 0 <= i < |s| && IsUpperChar(s[i]);
      assert Lower(s)[i] != s[i];
    } else {
      assert forall i :: 0 <= i < |s| ==> Lower(s)[i] == s[i];
    }
  }

  /** Unquoted text is searched as typed, case-sensitively exactly when it
      has an upper-case letter or the setting asks for it; quoted text is
      always case-sensitive; no text at all searches for `""`. */
  lemma ExpandedSpec(findTxt: Option<string>, matchCase: bool)
    ensures var t := TextOf(findTxt);
            (|t| == 0 || !IsQuote(t[0])) ==>
              Expanded(findTxt) == t && (MatchCaseFor(findTxt, matchCase) <==> HasUpper(t) || matchCase)
    ensures var t := TextOf(findTxt);
            |t| > 0 && IsQuote(t[0]) ==> MatchCaseFor(findTxt, matchCase)
    ensures (findTxt.None? || findTxt == Some("")) ==> Expanded(findTxt) == ""
    ensures var t := TextOf(findTxt);
            |t| > 0 && IsQuote(t[0]) && LiteralValue(t).Some? ==> Expanded(findTxt) == t[1..|t| - 1]
  {
    LowerChangesIffUpper(TextOf(findTxt));
  }

  // ---------------------------------------------------------------------
  // Smart-case replacement

  /** The character of the replacement at a position, cased like the
      replaced character there. */
  function CaseLike(original: char, c: char): (r: char)
    ensures IsUpperChar(original) ==> r == UpperChar(c)
    ensures IsLowerChar(original) ==> r == LowerChar(c)
    ensures !IsUpperChar(original) && !IsLowerChar(original) ==> r == c
  {
    if IsUpperChar(original) then UpperChar(c)
    else if IsLowerChar(original) then LowerChar(c)
    else c
  }

  /** The replacement text of `getReplacement` with smart casing on. */
  function SmartCased(replacing: string, replaceTxt: string): (r: string)
    ensures |r| == |replaceTxt|
  {
    if Upper(replacing) == replacing then Upper(replaceTxt)
    else if Lower(replacing) == replacing then Lower(replaceTxt)
    else if |replacing| == |replaceTxt| then
      seq(|replaceTxt|, i requires 0 <= i < |replaceTxt| => CaseLike(replacing[i], replaceTxt[i]))
    else if |replacing| > 0 && |replaceTxt| > 0 && UpperChar(replacing[0]) == replacing[0] then
      [UpperChar(replaceTxt[0])] + replaceTxt[1..]
    else if |replacing| > 0 && |replaceTxt| > 0 && LowerChar(replacing[0]) == replacing[0] then
      [LowerChar(replaceTxt[0])] + replaceTxt[1..]
    else replaceTxt
  }

  /** A replaced text with no lower-case letter (the empty one included)
      gives the replacement in upper case. */
  lemma SmartCasedUpper(replacing: string, replaceTxt: string)
    requires forall i :: 0 <= i < |replacing| ==> !IsLowerChar(replacing[i])
    ensures SmartCased(replacing, replaceTxt) == Upper(replaceTxt)
  {
    assert Upper(replacing) == replacing;
  }

  /** A replaced text with a lower-case letter and no upper-case one gives
      the replacement in lower case. */
  lemma SmartCasedLower(replacing: string, replaceTxt: string, j: int)
    requires 0 <= j < |replacing| && IsLowerChar(replacing[j])
    requires forall i :: 0 <= i < |replacing| ==> !IsUpperChar(replacing[i])
    ensures SmartCased(replacing, replaceTxt) == Lower(replaceTxt)
  {
    assert Upper(replacing)[j] != replacing[j];
    assert Lower(replacing) == replacing;
  }

  /** A mixed-case match of the same length lends its case position by
      position; any other mixed-case match lends only the case of its
      first letter. */
  lemma SmartCasedMixed(replacing: string, replaceTxt: string, j: int, k: int)
    requires 0 <= j < |replacing| && IsLowerChar(replacing[j])
    requires 0 <= k < |replacing| && IsUpperChar(replacing[k])
    ensures var r := SmartCased(replacing, replaceTxt);
            if |replacing| == |replaceTxt| then
              forall i :: 0 <= i < |r| ==> r[i] == CaseLike(replacing[i], replaceTxt[i])
            else if |replaceTxt| == 0 then r == replaceTxt
            else r[1..] == replaceTxt[1..] &&
                 r[0] == (if IsLowerChar(replacing[0]) then LowerChar(replaceTxt[0]) else UpperChar(replaceTxt[0]))
  {
    assert Upper(replacing)[j] != replacing[j];
    assert Lower(replacing)[k] != replacing[k];
  }

  /** With smart casing off the replacement is used as typed. */
  function Replacement(smartCase: bool, replacing: string, replaceTxt: string): (r: string)
    ensures !smartCase ==> r == replaceTxt
    ensures smartCase ==> r == SmartCased(replacing, replaceTxt)
  {
    if smartCase then SmartCased(replacing, replaceTxt) else replaceTxt
  }

  // ---------------------------------------------------------------------
  // Searching the document

  /** The pattern occurs at `i`, compared letter case and all when
      `matchCase`, and ignoring the case of letters otherwise. */
  predicate MatchesAt(text: string, pat: string, i: int, matchCase: bool)
  {
    0 <= i && i + |pat| <= |text| &&
    if matchCase then text[i..i + |pat|] == pat else Lower(text[i..i + |pat|]) == Lower(pat)
  }

  /** `FindText(start, len, pat)` searching down: the first match at or
      after `start`, or -1. */
  function FirstMatch(text: string, pat: string, start: nat, matchCase: bool): (r: int)
    ensures r == -1 || (start <= r && MatchesAt(text, pat, r, matchCase))
    ensures r >= 0 ==> forall j :: start <= j < r ==> !MatchesAt(text, pat, j, matchCase)
    ensures r == -1 ==> forall j :: start <= j ==> !MatchesAt(text, pat, j, matchCase)
    decreases |text| - start
  {
    if start + |pat| > |text| then -1
    else if MatchesAt(text, pat, start, matchCase) then start
    else FirstMatch(text, pat, start + 1, matchCase)
  }

  /** `FindText(start, 0, pat)` searching up: the last match that ends at
      or before `start`, or -1. */
  function LastMatchFrom(text: string, pat: string, i: int, matchCase: bool): (r: int)
    ensures r == -1 || (0 <= r <= i && MatchesAt(text, pat, r, matchCase))
    ensures forall j :: r < j <= i ==> !MatchesAt(text, pat, j, matchCase)
    decreases i + 1
  {
    if i < 0 then -1
    else if MatchesAt(text, pat, i, matchCase) then i
    else LastMatchFrom(text, pat, i - 1, matchCase)
  }

  function LastMatch(text: string, pat: string, start: int, matchCase: bool): (r: int)
    ensures r == -1 || (MatchesAt(text, pat, r, matchCase) && r + |pat| <= start)
    ensures forall j :: r < j && j + |pat| <= start ==> !MatchesAt(text, pat, j, matchCase)
  {
    LastMatchFrom(text, pat, start - |pat|, matchCase)
  }

  /** The search the flags ask for is case-sensitive. */
  predicate FlagsMatchCase(flags: int)
  {
    FloorMod(FloorDiv(flags, STC_FIND_MATCHCASE), 2) == 1
  }

  // ---------------------------------------------------------------------
  // The literal find service

  class FindService {
    var flags: int
    var settings: FindSettings

    /** `FindService(stc, settings)`: a fresh `FindSettings()` when none is
        given; a remembered find string is expanded, and the replace string
        is expanded when the expanded one is already set. */
    constructor(given: FindSettings?)
      modifies given
      ensures given != null ==> settings == given
      ensures given == null ==> fresh(settings) && !settings.matchCase && settings.smartCase
      ensures old(if given != null then given.findUser else "") != "" ==>
                settings.find == Expanded(Some(settings.findUser))
      ensures old(if given != null then given.replace else "") != "" ==>
                settings.replace == Expanded(Some(settings.replaceUser))
    {
      flags := 0;
      if given == null {
        settings := new FindSettings(false, true);
      } else {
        settings := given;
      }
      new;
      if settings.findUser != "" {
        SetFindString(settings.findUser);
      }
      if settings.replace != "" {
        SetReplaceString(settings.replaceUser);
      }
    }

    /** `expandSearchText(findTxt, set_flags)`: the searched text, and the
        case flag when `setFlags`. */
    method ExpandSearchText(findTxt: Option<string>, setFlags: bool) returns (r: string)
      modifies this`flags
      ensures r == Expanded(findTxt)
      ensures setFlags ==> flags == if MatchCaseFor(findTxt, settings.matchCase) then STC_FIND_MATCHCASE else 0
      ensures !setFlags ==> flags == old(flags)
    {
      var t := if findTxt.None? then "" else findTxt.value;
      var matchCase: bool;
      if |t| > 0 && IsQuote(t[0]) {
        var literal := LiteralValue(t);
        if literal.Some? {
          t := literal.value;
        }
        matchCase := true;
      } else if t != Lower(t) {
        matchCase := true;
      } else {
        matchCase := settings.matchCase;
      }
      if setFlags {
        flags := if matchCase then STC_FIND_MATCHCASE else 0;
      }
      r := t;
    }

    /** `expandReplaceText(text)`: the same expansion, flags untouched. */
    method ExpandReplaceText(text: Option<string>) returns (r: string)
      modifies this`flags
      ensures r == Expanded(text) && flags == old(flags)
    {
      r := ExpandSearchText(text, false);
    }

    method SetFindString(text: string)
      modifies settings`findUser, settings`find, this`flags
      ensures settings.findUser == text && settings.find == Expanded(Some(text))
      ensures flags == if MatchCaseFor(Some(text), settings.matchCase) then STC_FIND_MATCHCASE else 0
    {
      settings.findUser := text;
      var expanded := ExpandSearchText(Some(text), true);
      settings.find := expanded;
    }

    method SetReplaceString(text: string)
      modifies settings`replaceUser, settings`replace, this`flags
      ensures settings.replaceUser == text && settings.replace == Expanded(Some(text))
      ensures flags == old(flags)
    {
      settings.replaceUser := text;
      var expanded := ExpandReplaceText(Some(text));
      settings.replace := expanded;
    }

    /** `unserialize(storage)`: the saved strings become the current ones. */
    method Unserialize(storage: Storage)
      modifies settings, this`flags
      ensures settings.findUser == StoredOr(storage, LAST_SEARCH)
      ensures settings.find == Expanded(Some(StoredOr(storage, LAST_SEARCH)))
      ensures settings.replaceUser == StoredOr(storage, LAST_REPLACE)
      ensures settings.replace == Expanded(Some(StoredOr(storage, LAST_REPLACE)))
    {
      settings.Unserialize(storage);
      SetFindString(settings.findUser);
      SetReplaceString(settings.replaceUser);
    }

    /** `getReplacement(replacing)` */
    method GetReplacement(replacing: string) returns (r: string)
      ensures r == Replacement(settings.smartCase, replacing, settings.replace)
    {
      var replaceTxt := settings.replace;
      r := replaceTxt;
      if settings.smartCase {
        if Upper(replacing) == replacing {
          r := Upper(replaceTxt);
        } else if Lower(replacing) == replacing {
          r := Lower(replaceTxt);
        } else if |replacing| == |replaceTxt| {
          r := "";
          var i := 0;
          while i < |replacing|
            invariant 0 <= i <= |replacing|
            invariant |r| == i
            invariant forall k :: 0 <= k < i ==> r[k] == CaseLike(replacing[k], replaceTxt[k])
          {
            r := r + [CaseLike(replacing[i], replaceTxt[i])];
            i := i + 1;
          }
        } else if |replacing| > 0 && |replaceTxt| > 0 && UpperChar(replacing[0]) == replacing[0] {
          r := [UpperChar(replaceTxt[0])] + replaceTxt[1..];
        } else if |replacing| > 0 && |replaceTxt| > 0 && LowerChar(replacing[0]) == replacing[0] {
          r := [LowerChar(replaceTxt[0])] + replaceTxt[1..];
        }
      }
    }

    /** `doFindNext(start, incremental)` on the document `text` with the
        selection `selStart..selEnd`: `(None, None)` when there is nothing
        to search for; otherwise the first match at or after the start
        (-1 for none) and the start used. */
    method DoFindNext(text: string, selStart: nat, selEnd: nat, start: int, incremental: bool)
      returns (pos: Option<int>, from: Option<int>)
      ensures settings.find == "" <==> pos.None? && from.None?
      ensures from.Some? ==> from.value == if start >= 0 then start
                                           else if incremental then Min([selStart, selEnd]) else Max([selStart, selEnd])
      ensures pos.Some? && from.Some? ==> pos.value == FirstMatch(text, settings.find, from.value, FlagsMatchCase(flags))
    {
      if settings.find == "" {
        return None, None;
      }
      var s := start;
      if s < 0 {
        s := if incremental then Min([selStart, selEnd]) else Max([selStart, selEnd]);
      }
      // The literal service never rejects a match, so the search loop of
      // the source ends on its first pass.
      var p := FirstMatch(text, settings.find, s, FlagsMatchCase(flags));
      pos, from := Some(p), Some(s);
    }

    /** `doFindPrev(start, incremental)`: `(None, None)` when there is
        nothing to search for; otherwise the last match ending at or before
        the start (-1 for none) and the start used. */
    method DoFindPrev(text: string, selStart: nat, selEnd: nat, start: int, incremental: bool)
      returns (pos: Option<int>, from: Option<int>)
      ensures settings.find == "" <==> pos.None? && from.None?
      ensures from.Some? ==> from.value == if start >= 0 then start
                                           else if incremental then Min([selStart, selEnd]) + |settings.find|
                                           else Min([selStart, selEnd])
      ensures pos.Some? && from.Some? ==> pos.value == LastMatch(text, settings.find, from.value, FlagsMatchCase(flags))
    {
      if settings.find == "" {
        return None, None;
      }
      var s := start;
      if s < 0 {
        s := if incremental then Min([selStart, selEnd]) + |settings.find| else Min([selStart, selEnd]);
      }
      var p := LastMatch(text, settings.find, s, FlagsMatchCase(flags));
      pos, from := Some(p), Some(s);
    }
  }

  // ---------------------------------------------------------------------
  // The wildcard service's replacement

  predicate IsWildcard(c: char) { c == '*' || c == '?' }

  function WildcardCount(s: string): nat
  {
    if |s| == 0 then 0
    else WildcardCount(s[..|s| - 1]) + if IsWildcard(s[|s| - 1]) then 1 else 0
  }

  /** The matched group `k`, or `""` when the groups have run out. */
  function GroupOr(groups: seq<string>, k: nat): string
  {
    if k < |groups| then groups[k] else ""
  }

  /** The replacement text `s` with its wildcards, counted from `k`,
      filled in from `groups`. */
  function Filled(s: string, groups: seq<string>, k: nat): string
  {
    if |s| == 0 then ""
    else
      var prefix := s[..|s| - 1];
      Filled(prefix, groups, k) +
        if IsWildcard(s[|s| - 1]) then GroupOr(groups, k + WildcardCount(prefix)) else [s[|s| - 1]]
  }

  lemma {:induction false} WildcardCountAppend(a: string, b: string)
    ensures WildcardCount(a + b) == WildcardCount(a) + WildcardCount(b)
  {
    if |b| > 0 {
      assert (a + b)[..|a + b| - 1] == a + b[..|b| - 1];
      WildcardCountAppend(a, b[..|b| - 1]);
    } else {
      assert a + b == a;
    }
  }

  /** Filling is done piece by piece: the second piece's wildcards are
      numbered after the first piece's. */
  lemma {:induction false} FilledAppend(a: string, b: string, groups: seq<string>, k: nat)
    ensures Filled(a + b, groups, k) == Filled(a, groups, k) + Filled(b, groups, k + WildcardCount(a))
  {
    if |b| == 0 {
      assert a + b == a;
    } else {
      var b' := b[..|b| - 1];
      assert (a + b)[..|a + b| - 1] == a + b';
      FilledAppend(a, b', groups, k);
      WildcardCountAppend(a, b');
    }
  }

  /** The wildcard after `a` takes the group numbered by the wildcards of
      `a`, and text without wildcards is copied as it is. */
  lemma FilledWildcard(a: string, w: char, b: string, groups: seq<string>)
    requires IsWildcard(w)
    ensures Filled(a + [w] + b, groups, 0) ==
            Filled(a, groups, 0) + GroupOr(groups, WildcardCount(a)) + Filled(b, groups, WildcardCount(a) + 1)
  {
    FilledAppend(a + [w], b, groups, 0);
    FilledAppend(a, [w], groups, 0);
    WildcardCountAppend(a, [w]);
    var single: string := [w];
    assert single[..0] == [];
  }

  lemma {:induction false} FilledPlain(s: string, groups: seq<string>, k: nat)
    requires forall i :: 0 <= i < |s| ==> !IsWildcard(s[i])
    ensures Filled(s, groups, k) == s
  {
    if |s| > 0 {
      FilledPlain(s[..|s| - 1], groups, k);
    }
  }

  /** `FindWildcardService.getReplacement`, given the groups the Python
      regular expression matched (`[]` when it did not match). */
  method WildcardReplacement(replace: string, groups: seq<string>) returns (text: string)
    ensures text == Filled(replace, groups, 0)
  {
    text := "";
    var index := 0;
    var i := 0;
    while i < |replace|
      invariant 0 <= i <= |replace|
      invariant index == WildcardCount(replace[..i])
      invariant text == Filled(replace[..i], groups, 0)
    {
      var c := replace[i];
      assert replace[..i + 1][..i] == replace[..i];
      if IsWildcard(c) {
        if index < |groups| {
          text := text + groups[index];
        } else {
          text := text + "";
        }
        index := index + 1;
      } else {
        text := text + [c];
      }
      i := i + 1;
    }
    assert replace[..i] == replace;
  }
}
