/** The layered configuration: the per-user configuration directory's name,
    the class hierarchy used to look options up (cached per class), and a
    lookup that searches the user's settings over the whole hierarchy
    before the application defaults. Each configuration is a map from
    section (a class name) to option to value. Python's method resolution
    order is an input; reading and writing files is not modelled. */
module ConfigPrefs {
  import opened Base
  import opened Strings

  // ---------------------------------------------------------------------
  // The configuration directory

  /** The last component of `HomeConfigDir(dirname).dir`: one leading `.`
      is dropped from `dirname`, and `.` (`_` on win32) is put in front. */
  function ConfigDirName(dirname: string, win32: bool): string
  {
    var name := if |dirname| > 0 && dirname[0] == '.' then dirname[1..] else dirname;
    [if win32 then '_' else '.'] + name
  }

  /** The name starts with the platform's marker followed by `dirname`
      without one leading dot, so `.peppy` and `peppy` name the same
      directory and `..peppy` keeps one dot of its own. */
  lemma ConfigDirNameSpec(dirname: string, win32: bool)
    ensures var r := ConfigDirName(dirname, win32);
            |r| > 0 && r[0] == (if win32 then '_' else '.')
    ensures |dirname| > 0 && dirname[0] == '.' ==> ConfigDirName(dirname, win32)[1..] == dirname[1..]
    ensures !(|dirname| > 0 && dirname[0] == '.') ==> ConfigDirName(dirname, win32)[1..] == dirname
    ensures !(|dirname| > 0 && dirname[0] == '.') ==> ConfigDirName("." + dirname, win32) == ConfigDirName(dirname, win32)
  {
    assert ("." + dirname)[1..] == dirname;
  }

  /** `os.path.join(home, name)` on POSIX, for a name that is not absolute:
      the home directory, a `/` unless it already ends with one, and the
      name. */
  function PosixJoin(home: string, name: string): (r: string)
    ensures |r| >= |home| + |name| && r[..|home|] == home && r[|r| - |name|..] == name
  {
    if |home| == 0 || home[|home| - 1] == '/' then home + name else home + "/" + name
  }

  // ---------------------------------------------------------------------
  // The class hierarchy

  /** The mix-in classes the hierarchy leaves out. */
  predicate IsConfigClass(name: string)
  {
    name !in ["debugmixin", "ConfigMixin", "object"]
  }

  /** The class names `getHierarchy` reports for a class whose method
      resolution order is `mro`. */
  function HierarchyNames(mro: seq<string>): seq<string>
  {
    Filter(mro, IsConfigClass)
  }

  /** The names keep the resolution order, leave out the three mix-ins and
      keep every other class. */
  lemma HierarchyNamesSpec(mro: seq<string>)
    ensures forall i :: 0 <= i < |HierarchyNames(mro)| ==>
              IsConfigClass(HierarchyNames(mro)[i]) && HierarchyNames(mro)[i] in mro
    ensures forall k :: 0 <= k < |mro| && IsConfigClass(mro[k]) ==> mro[k] in HierarchyNames(mro)
  {
    FilterSound(mro, IsConfigClass);
    forall k | 0 <= k < |mro| && IsConfigClass(mro[k])
      ensures mro[k] in HierarchyNames(mro)
    {
      FilterComplete(mro, IsConfigClass, k);
    }
  }

  // ---------------------------------------------------------------------
  // Looking an option up

  /** A parsed configuration: section, then option, then value. */
  type Config = map<string, map<string, string>>

  /** The value of `key` in the first of `names` whose section has it. */
  function SearchIn(cfg: Config, names: seq<string>, key: string): Option<string>
  {
    if |names| == 0 then None
    else if names[0] in cfg && key in cfg[names[0]] then Some(cfg[names[0]][key])
    else SearchIn(cfg, names[1..], key)
  }

  predicate HasOption(cfg: Config, name: string, key: string)
  {
    name in cfg && key in cfg[name]
  }

  /** The search finds the option exactly when some section of the
      hierarchy has it, and then gives the value of the first such one. */
  lemma {:induction false} SearchInFirst(cfg: Config, names: seq<string>, key: string, i: nat)
    requires i < |names| && HasOption(cfg, names[i], key)
    requires forall j :: 0 <= j < i ==> !HasOption(cfg, names[j], key)
    ensures SearchIn(cfg, names, key) == Some(cfg[names[i]][key])
  {
    if i > 0 {
      SearchInFirst(cfg, names[1..], key, i - 1);
    }
  }

  lemma {:induction false} SearchInNone(cfg: Config, names: seq<string>, key: string)
    requires forall j :: 0 <= j < |names| ==> !HasOption(cfg, names[j], key)
    ensures SearchIn(cfg, names, key) == None
  {
    if |names| > 0 {
      SearchInNone(cfg, names[1..], key);
    }
  }

  /** `HierarchalConfig.get(obj, option)` for the hierarchy `names`: the
      user's settings are searched over every class before the
      application's defaults. The user's parser folds option names to
      lower case; the application's compares them as given. */
  function Lookup(user: Config, app: Config, names: seq<string>, option: string): Option<string>
  {
    match SearchIn(user, names, Lower(option))
    case Some(v) => Some(v)
    case None => SearchIn(app, names, option)
  }

  /** A user setting anywhere in the hierarchy, even on the most general
      class, wins over every application default; without one the first
      application default is used. */
  lemma LookupSpec(user: Config, app: Config, names: seq<string>, option: string, i: nat)
    requires i < |names|
    ensures HasOption(user, names[i], Lower(option)) && (forall j :: 0 <= j < i ==> !HasOption(user, names[j], Lower(option))) ==>
              Lookup(user, app, names, option) == Some(user[names[i]][Lower(option)])
    ensures (forall j :: 0 <= j < |names| ==> !HasOption(user, names[j], Lower(option))) &&
            HasOption(app, names[i], option) && (forall j :: 0 <= j < i ==> !HasOption(app, names[j], option)) ==>
              Lookup(user, app, names, option) == Some(app[names[i]][option])
  {
    if HasOption(user, names[i], Lower(option)) && (forall j :: 0 <= j < i ==> !HasOption(user, names[j], Lower(option))) {
      SearchInFirst(user, names, Lower(option), i);
    }
    if (forall j :: 0 <= j < |names| ==> !HasOption(user, names[j], Lower(option))) &&
       HasOption(app, names[i], option) && (forall j :: 0 <= j < i ==> !HasOption(app, names[j], option)) {
      SearchInNone(user, names, Lower(option));
      SearchInFirst(app, names, option, i);
    }
  }

  /** Found in neither configuration gives `None`. */
  lemma LookupMissing(user: Config, app: Config, names: seq<string>, option: string)
    requires forall j :: 0 <= j < |names| ==> !HasOption(user, names[j], Lower(option)) && !HasOption(app, names[j], option)
    ensures Lookup(user, app, names, option) == None
  {
    SearchInNone(user, names, Lower(option));
    SearchInNone(app, names, option);
  }

  /** `usercfg.set(section, key, value)`, adding the section if missing. */
  function SetIn(cfg: Config, section: string, key: string, value: string): Config
  {
    var options := if section in cfg then cfg[section] else map[];
    cfg[section := options[key := value]]
  }

  /** After `setoption`, looking the option up from the same class gives
      the value set, whatever the application defaults say. */
  lemma SetThenLookup(user: Config, app: Config, names: seq<string>, option: string, value: string)
    requires |names| > 0
    ensures Lookup(SetIn(user, names[0], Lower(option), value), app, names, option) == Some(value)
  {
  }

  /** Setting an option changes no other option of any section. */
  lemma SetInOthers(cfg: Config, section: string, key: string, value: string, s: string, k: string)
    requires s != section || k != key
    ensures HasOption(SetIn(cfg, section, key, value), s, k) <==> HasOption(cfg, s, k)
    ensures HasOption(cfg, s, k) ==> SetIn(cfg, section, key, value)[s][k] == cfg[s][k]
  {
  }

  // ---------------------------------------------------------------------
  // Booleans

  /** `ConfigMixin.getboolean` on the looked-up value. */
  predicate IsTrueText(val: Option<string>)
  {
    val.Some? && Lower(val.value) in ["1", "yes", "true", "on"]
  }

  lemma LowerTwice(s: string)
    ensures Lower(Lower(s)) == Lower(s)
  {
  }

  /** Case does not matter, a missing value is false, and the usual
      spellings of yes and no read as expected. */
  lemma IsTrueTextSpec(s: string)
    ensures IsTrueText(Some(s)) == IsTrueText(Some(Lower(s)))
    ensures !IsTrueText(None)
    ensures IsTrueText(Some("Yes")) && IsTrueText(Some("TRUE")) && IsTrueText(Some("On")) && IsTrueText(Some("1"))
    ensures !IsTrueText(Some("no")) && !IsTrueText(Some("False")) && !IsTrueText(Some("off")) && !IsTrueText(Some("0"))
  {
    LowerTwice(s);
    assert Lower("Yes") == "yes" && Lower("TRUE") == "true" && Lower("On") == "on" && Lower("1") == "1";
    assert Lower("no") == "no" && Lower("False") == "false" && Lower("off") == "off" && Lower("0") == "0";
  }

  // ---------------------------------------------------------------------
  // Application defaults

  /** Whether `get` finds an application default as written: the defaults
      are stored while the parser still folds option names to lower case,
      and the parser is made case sensitive only afterwards, so a default
      is found only under the lower-cased form of its name. */
  predicate AppHasAsWritten(appdefs: Config, section: string, option: string)
  {
    section in appdefs && exists o :: o in appdefs[section] && Lower(o) == option
  }

  /** The application defaults stored under their own names, as the
      comment "make the config parser case sensitive" intends. */
  function AppConfig(appdefs: Config): Config
  {
    appdefs
  }

  /** A default named `showSplash` is never found as written, though the
      intended configuration has it. */
  lemma MixedCaseDefaultLost()
    ensures var appdefs: Config := map["Peppy" := map["showSplash" := "True"]];
            !AppHasAsWritten(appdefs, "Peppy", "showSplash") && HasOption(AppConfig(appdefs), "Peppy", "showSplash")
  {
    var appdefs: Config := map["Peppy" := map["showSplash" := "True"]];
    forall o | o in appdefs["Peppy"]
      ensures Lower(o) != "showSplash"
    {
      if |o| == 10 {
        assert Lower(o)[4] == LowerChar(o[4]) != 'S';
      }
    }
  }

  /** With the intended defaults every default is found under its own
      name from a class whose hierarchy starts with its section, unless
      the user has set it. */
  lemma AppDefaultFound(user: Config, appdefs: Config, names: seq<string>, option: string)
    requires |names| > 0 && HasOption(appdefs, names[0], option)
    requires forall j :: 0 <= j < |names| ==> !HasOption(user, names[j], Lower(option))
    ensures Lookup(user, AppConfig(appdefs), names, option) == Some(appdefs[names[0]][option])
  {
    LookupSpec(user, AppConfig(appdefs), names, option, 0);
  }

  // ---------------------------------------------------------------------
  // The configuration object

  /** A `HierarchalConfig` with the module's class-hierarchy cache
      (`parentclasses`). `mro` gives each class's resolution order by
      name. */
  class HierarchalConfig {
    const mro: string -> seq<string>
    var parentclasses: map<string, seq<string>>
    var usercfg: Config
    var appcfg: Config

    /** Every cached hierarchy is the one `getHierarchy` computes. */
    ghost predicate CacheValid()
      reads this
    {
      forall k :: k in parentclasses ==> parentclasses[k] == HierarchyNames(mro(k))
    }

    /** `HierarchalConfig(appdefs=appdefs)` with the application defaults
        corrected to be stored under their own names (`AppConfig`; as
        written, `AppHasAsWritten` finds them only in lower case), an empty
        user configuration and an empty cache. */
    constructor(mro: string -> seq<string>, appdefs: Config)
      ensures this.mro == mro && parentclasses == map[] && usercfg == map[] && appcfg == AppConfig(appdefs)
      ensures CacheValid()
    {
      this.mro := mro;
      this.parentclasses := map[];
      this.usercfg := map[];
      this.appcfg := appdefs;
    }

    /** `getHierarchy(obj)` for an object of class `klass`: the cached
        names, or the names computed and cached. */
    method GetHierarchy(klass: string) returns (names: seq<string>)
      requires CacheValid()
      modifies this`parentclasses
      ensures CacheValid()
      ensures names == HierarchyNames(mro(klass))
      ensures parentclasses == old(parentclasses)[klass := names]
    {
      if klass in parentclasses {
        names := parentclasses[klass];
      } else {
        var resolution := mro(klass);
        names := [];
        for k := 0 to |resolution|
          invariant names == Filter(resolution[..k], IsConfigClass)
        {
          assert resolution[..k + 1][..k] == resolution[..k];
          if resolution[k] !in ["debugmixin", "ConfigMixin", "object"] {
            names := names + [resolution[k]];
          }
        }
        assert resolution[..|resolution|] == resolution;
        parentclasses := parentclasses[klass := names];
      }
    }

    /** The first pass of `get`: the user's value from the first class in
        `names` that has it. */
    static method SearchPass(cfg: Config, names: seq<string>, key: string) returns (r: Option<string>)
      ensures r == SearchIn(cfg, names, key)
    {
      for i := 0 to |names|
        invariant SearchIn(cfg, names, key) == SearchIn(cfg, names[i..], key)
      {
        var name := names[i];
        assert names[i..][1..] == names[i + 1..];
        if name in cfg && key in cfg[name] {
          return Some(cfg[name][key]);
        }
      }
      return None;
    }

    /** `HierarchalConfig.get(obj, option)`. */
    method Get(klass: string, option: string) returns (r: Option<string>)
      requires CacheValid()
      modifies this`parentclasses
      ensures CacheValid()
      ensures r == Lookup(usercfg, appcfg, HierarchyNames(mro(klass)), option)
    {
      var names := GetHierarchy(klass);
      r := SearchPass(usercfg, names, Lower(option));
      if r.None? {
        r := SearchPass(appcfg, names, option);
      }
    }

    /** `HierarchalConfig.setoption(obj, param, value)`, with `value`
        already turned into text: written into the user section of the
        object's own class. A hierarchy with no class left raises
        `IndexError` (`ok` false) and changes nothing. */
    method SetOption(klass: string, param: string, value: string) returns (ok: bool)
      requires CacheValid()
      modifies this`parentclasses, this`usercfg
      ensures CacheValid()
      ensures var names := HierarchyNames(mro(klass));
              ok == (|names| > 0) &&
              usercfg == (if ok then SetIn(old(usercfg), names[0], Lower(param), value) else old(usercfg))
    {
      var names := GetHierarchy(klass);
      if |names| == 0 {
        return false;
      }
      var section := names[0];
      var options := if section in usercfg then usercfg[section] else map[];
      usercfg := usercfg[section := options[Lower(param) := value]];
      return true;
    }

    /** `ConfigMixin.getboolean(param)`. */
    method GetBoolean(klass: string, param: string) returns (r: bool)
      requires CacheValid()
      modifies this`parentclasses
      ensures CacheValid()
      ensures r == IsTrueText(Lookup(usercfg, appcfg, HierarchyNames(mro(klass)), param))
    {
      var val := Get(klass, param);
      r := val.Some? && Lower(val.value) in ["1", "yes", "true", "on"];
    }
  }
}
