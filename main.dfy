/** The application object's start-up logic: choosing between a new and the
    current tab, the leet-speak translator, the command-line options handled
    before plugins load, the order of configuration files, and the file
    names passed to and received from an already running instance. The
    process's working directory (`os.path.abspath`), the platform names and
    the files that exist are inputs. */
module PeppyApp {
  import opened Base
  import opened Strings

  // ---------------------------------------------------------------------
  // Tabs

  /** The choices of `open_file_in_new_tab` and `documents_in_new_tab`. */
  const ALWAYS_NEW_TAB := 0
  const NEW_TAB_UNLESS_BLANK := 1
  const ALWAYS_REUSE_TAB := 2

  /** `Tabs.useNewTab(mode, new_tab)`, with `temporary` the mode's flag for
      a blank placeholder tab. */
  function UseNewTab(newTab: int, temporary: bool): bool
  {
    newTab == 0 || (newTab == 1 && !temporary)
  }

  /** "always use new tab" always does, "always reuse current tab" never
      does, and "use new tab unless blank" does unless the current tab is
      a blank one. */
  lemma UseNewTabChoices(newTab: int, temporary: bool)
    ensures newTab == ALWAYS_NEW_TAB ==> UseNewTab(newTab, temporary)
    ensures newTab == ALWAYS_REUSE_TAB ==> !UseNewTab(newTab, temporary)
    ensures newTab == NEW_TAB_UNLESS_BLANK ==> (UseNewTab(newTab, temporary) <==> !temporary)
    ensures newTab !in {ALWAYS_NEW_TAB, NEW_TAB_UNLESS_BLANK} ==> !UseNewTab(newTab, temporary)
  {
  }

  // ---------------------------------------------------------------------
  // Leet speak

  /** The `maketrans('abegilorstz', '4639!102572')` table. */
  const LEET_FROM := "abegilorstz"
  const LEET_TO := "4639!102572"

  function LeetChar(c: char): (r: char)
    ensures c !in LEET_FROM ==> r == c
    ensures c in LEET_FROM ==> r in LEET_TO
  {
    if c == 'a' then '4' else if c == 'b' then '6' else if c == 'e' then '3'
    else if c == 'g' then '9' else if c == 'i' then '!' else if c == 'l' then '1'
    else if c == 'o' then '0' else if c == 'r' then '2' else if c == 's' then '5'
    else if c == 't' then '7' else if c == 'z' then '2'
    else c
  }

  /** The table maps each letter to the character in the same place. */
  lemma LeetTable(k: nat)
    requires k < |LEET_FROM|
    ensures LeetChar(LEET_FROM[k]) == LEET_TO[k]
  {
  }

  /** `Language.translateLeet(msgid)`: a message with a `%` (a format
      string) is left alone, otherwise every character goes through the
      table. Characters outside ASCII pass through the UTF-8 round trip
      unchanged. */
  function TranslateLeet(msgid: string): string
  {
    if '%' in msgid then msgid
    else seq(|msgid|, i requires 0 <= i < |msgid| => LeetChar(msgid[i]))
  }

  /** The translation keeps the length, keeps format strings, and leaves
      no letter of the table behind. */
  lemma TranslateLeetSpec(msgid: string)
    ensures |TranslateLeet(msgid)| == |msgid|
    ensures '%' in msgid ==> TranslateLeet(msgid) == msgid
    ensures '%' !in msgid ==> forall i :: 0 <= i < |msgid| ==> TranslateLeet(msgid)[i] !in LEET_FROM
  {
  }

  /** A character the table produces is not one it translates. */
  lemma LeetCharFixed(c: char)
    ensures LeetChar(LeetChar(c)) == LeetChar(c)
    ensures LeetChar(c) != '%' || c == '%'
  {
  }

  /** Translating twice is translating once. */
  lemma TranslateLeetIdempotent(msgid: string)
    ensures TranslateLeet(TranslateLeet(msgid)) == TranslateLeet(msgid)
  {
    if '%' !in msgid {
      var t := TranslateLeet(msgid);
      forall i | 0 <= i < |t|
        ensures t[i] != '%' && LeetChar(t[i]) == t[i]
      {
        LeetCharFixed(msgid[i]);
      }
      assert '%' !in t;
    }
  }

  // ---------------------------------------------------------------------
  // Command-line lists

  function Eq(x: string): string -> bool
  {
    y => y == x
  }

  function Ne(x: string): string -> bool
  {
    y => y != x
  }

  /** `xs.count(x)` */
  function Count(xs: seq<string>, x: string): nat
  {
    |Filter(xs, Eq(x))|
  }

  /** `xs` with every `x` deleted. */
  function Without(xs: seq<string>, x: string): seq<string>
  {
    Filter(xs, Ne(x))
  }

  /** `xs.index(x)`: the first position of `x`. */
  function IndexOf(xs: seq<string>, x: string): (r: nat)
    requires x in xs
    ensures r < |xs| && xs[r] == x
    ensures forall j :: 0 <= j < r ==> xs[j] != x
  {
    if xs[0] == x then 0 else 1 + IndexOf(xs[1..], x)
  }

  /** `del xs[i]` */
  function RemoveAt(xs: seq<string>, i: nat): (r: seq<string>)
    requires i < |xs|
    ensures |r| == |xs| - 1
  {
    xs[..i] + xs[i + 1..]
  }

  lemma SplitAt(xs: seq<string>, i: nat)
    requires i < |xs|
    ensures xs == xs[..i] + [xs[i]] + xs[i + 1..]
    ensures RemoveAt(xs, i) == xs[..i] + xs[i + 1..]
  {
  }

  /** Deleting one element lowers its count by one and keeps the others'. */
  lemma CountRemoveAt(xs: seq<string>, i: nat, y: string)
    requires i < |xs|
    ensures Count(RemoveAt(xs, i), y) == Count(xs, y) - (if xs[i] == y then 1 else 0)
  {
    SplitAt(xs, i);
    FilterAppend(xs[..i] + [xs[i]], xs[i + 1..], Eq(y));
    FilterAppend(xs[..i], [xs[i]], Eq(y));
    FilterAppend(xs[..i], xs[i + 1..], Eq(y));
    assert [xs[i]][..0] == [];
    assert Filter([xs[i]], Eq(y)) == (if xs[i] == y then [xs[i]] else []);
  }

  /** Deleting an `x` does not change the list with every `x` deleted. */
  lemma WithoutRemoveAt(xs: seq<string>, i: nat, x: string)
    requires i < |xs| && xs[i] == x
    ensures Without(RemoveAt(xs, i), x) == Without(xs, x)
  {
    SplitAt(xs, i);
    FilterAppend(xs[..i] + [xs[i]], xs[i + 1..], Ne(x));
    FilterAppend(xs[..i], [xs[i]], Ne(x));
    FilterAppend(xs[..i], xs[i + 1..], Ne(x));
    assert [xs[i]][..0] == [];
    assert Filter([xs[i]], Ne(x)) == [];
  }

  /** A list that holds no `x` has none to delete. */
  lemma WithoutNone(xs: seq<string>, x: string)
    requires x !in xs
    ensures Without(xs, x) == xs
  {
    FilterAll(xs, Ne(x));
  }

  /** No `x` is left, every other argument is kept as often as it was, and
      the count is zero exactly for a list without `x`. */
  lemma WithoutSpec(xs: seq<string>, x: string, y: string)
    ensures x !in Without(xs, x)
    ensures y != x ==> Count(Without(xs, x), y) == Count(xs, y)
    ensures Count(xs, x) == 0 <==> x !in xs
  {
    FilterSound(xs, Ne(x));
    if y != x {
      CountWithout(xs, x, y);
    }
    var f := Filter(xs, Eq(x));
    if x in xs {
      var k :| 0 <= k < |xs| && xs[k] == x;
      FilterComplete(xs, Eq(x), k);
    } else {
      CountAbsent(xs, x);
    }
  }

  lemma {:induction false} CountAbsent(xs: seq<string>, x: string)
    requires x !in xs
    ensures Count(xs, x) == 0
  {
    if |xs| > 0 {
      var init := xs[..|xs| - 1];
      assert forall y :: y in init ==> y in xs;
      CountAbsent(init, x);
    }
  }

  lemma {:induction false} CountWithout(xs: seq<string>, x: string, y: string)
    requires y != x
    ensures Count(Without(xs, x), y) == Count(xs, y)
  {
    if |xs| > 0 {
      var init := xs[..|xs| - 1];
      CountWithout(init, x, y);
      var last := xs[|xs| - 1];
      assert [last][..0] == [];
      assert Filter([last], Eq(y)) == (if last == y then [last] else []);
      if last != x {
        assert Without(xs, x) == Without(init, x) + [last];
        FilterAppend(Without(init, x), [last], Eq(y));
      } else {
        assert Without(xs, x) == Without(init, x);
      }
    }
  }

  /** `if x in xs: del xs[xs.index(x)]`: the first `x` deleted. */
  function RemoveFirst(xs: seq<string>, x: string): seq<string>
  {
    if x in xs then RemoveAt(xs, IndexOf(xs, x)) else xs
  }

  /** One `x` goes when there is one, and every other argument stays. */
  lemma RemoveFirstSpec(xs: seq<string>, x: string, y: string)
    ensures x in xs ==> |RemoveFirst(xs, x)| == |xs| - 1 && Count(RemoveFirst(xs, x), x) == Count(xs, x) - 1
    ensures x !in xs ==> RemoveFirst(xs, x) == xs
    ensures y != x ==> Count(RemoveFirst(xs, x), y) == Count(xs, y)
  {
    if x in xs {
      CountRemoveAt(xs, IndexOf(xs, x), x);
      CountRemoveAt(xs, IndexOf(xs, x), y);
    }
  }

  /** An argument other than `x` is still there after the first `x` goes. */
  lemma RemoveFirstKeeps(xs: seq<string>, x: string, y: string)
    requires y != x && y in xs
    ensures y in RemoveFirst(xs, x)
  {
    RemoveFirstSpec(xs, x, y);
    WithoutSpec(xs, x, y);
    WithoutSpec(RemoveFirst(xs, x), x, y);
    WithoutSpec(xs, y, y);
    WithoutSpec(RemoveFirst(xs, x), y, y);
  }

  // ---------------------------------------------------------------------
  // The configuration directory option

  /** `-c dir` as written: the guard `len(sys.argv) > index` always holds,
      so a `-c` in last place reads past the end (`None` stands for the
      `IndexError`). */
  function ConfDirAsWritten(argv: seq<string>): Option<(seq<string>, string)>
  {
    if "-c" !in argv then Some((argv, ""))
    else
      var index := IndexOf(argv, "-c");
      if |argv| > index then
        (if index + 1 < |argv| then Some((argv[..index] + argv[index + 2..], argv[index + 1])) else None)
      else Some((argv, ""))
  }

  /** A command line ending in `-c` raises `IndexError`. */
  lemma ConfDirLastFails()
    ensures ConfDirAsWritten(["peppy", "-c"]).None?
  {
    assert IndexOf(["peppy", "-c"], "-c") == 1;
  }

  /** `-c dir`, with the guard asking for the argument after `-c`: the
      first `-c` and its argument are removed and the argument becomes the
      configuration directory; a `-c` with nothing after it is left for the
      option parser to report. */
  function ConfDir(argv: seq<string>): (seq<string>, string)
  {
    if "-c" !in argv then (argv, "")
    else
      var index := IndexOf(argv, "-c");
      if index + 1 < |argv| then (argv[..index] + argv[index + 2..], argv[index + 1]) else (argv, "")
  }

  /** Whenever the code as written does not fail, it does what `ConfDir`
      does; `ConfDir` takes the argument after the first `-c`, removes
      exactly those two, and otherwise changes nothing. */
  lemma ConfDirSpec(argv: seq<string>)
    ensures ConfDirAsWritten(argv).Some? ==> ConfDirAsWritten(argv).value == ConfDir(argv)
    ensures "-c" in argv && IndexOf(argv, "-c") + 1 < |argv| ==>
              var i := IndexOf(argv, "-c");
              ConfDir(argv).1 == argv[i + 1] && ConfDir(argv).0 == argv[..i] + argv[i + 2..] &&
              |ConfDir(argv).0| == |argv| - 2
    ensures !("-c" in argv && IndexOf(argv, "-c") + 1 < |argv|) ==> ConfDir(argv) == (argv, "")
  {
  }

  // ---------------------------------------------------------------------
  // Flags

  /** The three flags `bootstrapCommandLineOptions` may set, as attributes
      that are absent (`None`) until set: `no_server_option`,
      `no_setuptools` and `no_splash`. */
  datatype Flags = Flags(noServerOption: Option<bool>, noSetuptools: Option<bool>, noSplash: Option<bool>)

  /** The arguments left once each of `--no-server`, `--no-setuptools` and
      `--no-splash` has been removed once. */
  function FlagArgs(argv: seq<string>): seq<string>
  {
    RemoveFirst(RemoveFirst(RemoveFirst(argv, "--no-server"), "--no-setuptools"), "--no-splash")
  }

  /** The flags after those removals; `--test` and `-t` also turn the
      server off but stay in the arguments. */
  function FlagsAfter(argv: seq<string>, flags: Flags): Flags
  {
    var a1 := RemoveFirst(argv, "--no-server");
    var a2 := RemoveFirst(a1, "--no-setuptools");
    var noServer := if "--no-server" in argv || "--test" in a1 || "-t" in a1 then Some(false) else flags.noServerOption;
    var noSetuptools := if "--no-setuptools" in a1 then Some(true) else flags.noSetuptools;
    var noSplash := if "--no-splash" in a2 then Some(true) else flags.noSplash;
    Flags(noServer, noSetuptools, noSplash)
  }

  /** The single-instance server is asked for only when the preference is
      on and `no_server_option` was never set. */
  predicate ServerRequested(requestServer: bool, flags: Flags)
  {
    requestServer && flags.noServerOption.None?
  }

  /** The splash screen shows only when the preference is on and
      `no_splash` was never set. */
  predicate SplashShown(showSplash: bool, flags: Flags)
  {
    showSplash && flags.noSplash.None?
  }

  /** Any of `--no-server`, `--test` or `-t` keeps the server off, and
      `--no-splash` keeps the splash screen off; each flag option is gone
      from the arguments afterwards when it was given once. */
  lemma FlagsSpec(argv: seq<string>, flags: Flags, requestServer: bool, showSplash: bool)
    ensures "--no-server" in argv || "--test" in argv || "-t" in argv ==>
              !ServerRequested(requestServer, FlagsAfter(argv, flags))
    ensures "--no-splash" in argv ==> !SplashShown(showSplash, FlagsAfter(argv, flags))
    ensures "--no-setuptools" in argv ==> FlagsAfter(argv, flags).noSetuptools == Some(true)
    ensures Count(argv, "--no-server") == 1 ==> "--no-server" !in FlagArgs(argv)
  {
    var a1 := RemoveFirst(argv, "--no-server");
    var a2 := RemoveFirst(a1, "--no-setuptools");
    if "--test" in argv {
      RemoveFirstKeeps(argv, "--no-server", "--test");
    }
    if "-t" in argv {
      RemoveFirstKeeps(argv, "--no-server", "-t");
    }
    if "--no-setuptools" in argv {
      RemoveFirstKeeps(argv, "--no-server", "--no-setuptools");
    }
    if "--no-splash" in argv {
      RemoveFirstKeeps(argv, "--no-server", "--no-splash");
      RemoveFirstKeeps(a1, "--no-setuptools", "--no-splash");
    }
    if Count(argv, "--no-server") == 1 {
      RemoveFirstSpec(argv, "--no-server", "--no-server");
      WithoutSpec(a1, "--no-server", "--no-server");
      RemoveFirstSpec(a1, "--no-setuptools", "--no-server");
      RemoveFirstSpec(a2, "--no-splash", "--no-server");
      WithoutSpec(FlagArgs(argv), "--no-server", "--no-server");
    }
  }

  // ---------------------------------------------------------------------
  // Files sent to a running instance

  /** A name `run` makes absolute: no `://`, and neither `/` nor `-` first. */
  predicate IsRelativeName(filename: string)
  {
    Find(filename, "://") == -1 && !(|filename| > 0 && filename[0] == '/') && !(|filename| > 0 && filename[0] == '-')
  }

  /** What `run` sends for one argument. */
  function SentName(filename: string, abspath: string -> string): string
  {
    if IsRelativeName(filename) then abspath(filename) else filename
  }

  /** Everything `run` sends to the running instance: each argument after
      the program name, then `None` to end the list; nothing when there is
      no argument. */
  function Messages(argv: seq<string>, abspath: string -> string): (r: seq<Option<string>>)
    ensures |argv| <= 1 ==> r == []
    ensures |argv| > 1 ==> |r| == |argv| && r[|argv| - 1] == None
  {
    if |argv| <= 1 then []
    else seq(|argv| - 1, i requires 0 <= i < |argv| - 1 => Some(SentName(argv[i + 1], abspath))) + [None]
  }

  /** URLs, absolute paths and options go out unchanged, other names are
      made absolute, and the end marker comes only last. */
  lemma MessagesSpec(argv: seq<string>, abspath: string -> string, i: nat)
    requires 0 < i < |argv|
    ensures var f := argv[i];
            (Contains(f, "://") || (|f| > 0 && (f[0] == '/' || f[0] == '-'))) ==> Messages(argv, abspath)[i - 1] == Some(f)
    ensures var f := argv[i];
            !Contains(f, "://") && !(|f| > 0 && (f[0] == '/' || f[0] == '-')) ==> Messages(argv, abspath)[i - 1] == Some(abspath(f))
  {
    var f := argv[i];
    assert Messages(argv, abspath)[i - 1] == Some(SentName(f, abspath));
    assert Find(f, "://") == -1 <==> !Contains(f, "://");
  }

  /** `run`'s loop over the arguments. */
  method SendToOtherInstance(argv: seq<string>, abspath: string -> string) returns (sent: seq<Option<string>>)
    ensures sent == Messages(argv, abspath)
  {
    sent := [];
    if |argv| > 1 {
      for k := 1 to |argv|
        invariant sent == seq(k - 1, i requires 0 <= i < k - 1 => Some(SentName(argv[i + 1], abspath)))
      {
        var filename := argv[k];
        if Find(filename, "://") == -1 && !(|filename| > 0 && filename[0] == '/') && !(|filename| > 0 && filename[0] == '-') {
          filename := abspath(filename);
        }
        sent := sent + [Some(filename)];
      }
      sent := sent + [None];
    }
  }

  // ---------------------------------------------------------------------
  // Files received from another instance

  /** A file name, as opposed to an option: it does not start with `-`. */
  predicate IsFileArg(arg: string)
  {
    !(|arg| > 0 && arg[0] == '-')
  }

  /** The file names among the collected arguments, in order. */
  function FileArgs(args: seq<string>): seq<string>
  {
    Filter(args, IsFileArg)
  }

  /** Options are dropped and every file name is kept. */
  lemma FileArgsSpec(args: seq<string>)
    ensures forall i :: 0 <= i < |FileArgs(args)| ==> IsFileArg(FileArgs(args)[i]) && FileArgs(args)[i] in args
    ensures forall k :: 0 <= k < |args| && IsFileArg(args[k]) ==> args[k] in FileArgs(args)
  {
    FilterSound(args, IsFileArg);
    forall k | 0 <= k < |args| && IsFileArg(args[k])
      ensures args[k] in FileArgs(args)
    {
      FilterComplete(args, IsFileArg, k);
    }
  }

  /** One message from another instance: an argument, or the end marker. */
  datatype RemoteArg = Arg(arg: string) | Eof

  /** What the end marker asks for: a new frame on the files, or opening
      each in a new tab of the top frame. */
  datatype Request = Collecting | NewFrame(files: seq<string>) | OpenInTopFrame(files: seq<string>)

  // ---------------------------------------------------------------------
  // Configuration files

  const BASE_PREFERENCES := "preferences.cfg"
  const OVERRIDE_PREFERENCES := "peppy.cfg"

  /** The files `loadConfig` reads, in order: the base preferences, the
      platform's, the host's, and the overrides. */
  function ConfigFiles(system: string, node: string): (r: seq<string>)
    ensures |r| == 4 && r[0] == BASE_PREFERENCES && r[3] == OVERRIDE_PREFERENCES
    ensures r[1] == system + ".cfg" && r[2] == node + ".cfg"
  {
    [BASE_PREFERENCES, system + ".cfg", node + ".cfg", OVERRIDE_PREFERENCES]
  }

  /** The configuration files read: those that exist, in that order. */
  function LoadedFiles(system: string, node: string, fileExists: string -> bool): seq<string>
  {
    Filter(ConfigFiles(system, node), fileExists)
  }

  function IfExists(f: string, fileExists: string -> bool): seq<string>
  {
    if fileExists(f) then [f] else []
  }

  /** Each file is read if it exists, in the order listed. */
  lemma {:induction false} LoadedFilesInOrder(system: string, node: string, fileExists: string -> bool)
    ensures LoadedFiles(system, node, fileExists) ==
              IfExists(BASE_PREFERENCES, fileExists) + IfExists(system + ".cfg", fileExists) +
              IfExists(node + ".cfg", fileExists) + IfExists(OVERRIDE_PREFERENCES, fileExists)
  {
    var files := ConfigFiles(system, node);
    assert files[..4][..3] == files[..3] && files[..3][..2] == files[..2] && files[..2][..1] == files[..1];
    assert files[..1][..0] == [];
    assert files[..4] == files;
    assert Filter(files[..1], fileExists) == IfExists(files[0], fileExists);
    assert Filter(files[..2], fileExists) == Filter(files[..1], fileExists) + IfExists(files[1], fileExists);
    assert Filter(files[..3], fileExists) == Filter(files[..2], fileExists) + IfExists(files[2], fileExists);
  }

  /** When all four exist, all are read in order; the base preferences come
      first and the overrides last whenever they exist. */
  lemma LoadedFilesSpec(system: string, node: string, fileExists: string -> bool)
    ensures (forall i :: 0 <= i < 4 ==> fileExists(ConfigFiles(system, node)[i])) ==>
              LoadedFiles(system, node, fileExists) == ConfigFiles(system, node)
    ensures fileExists(BASE_PREFERENCES) ==>
              |LoadedFiles(system, node, fileExists)| > 0 && LoadedFiles(system, node, fileExists)[0] == BASE_PREFERENCES
    ensures fileExists(OVERRIDE_PREFERENCES) ==>
              |LoadedFiles(system, node, fileExists)| > 0 &&
              LoadedFiles(system, node, fileExists)[|LoadedFiles(system, node, fileExists)| - 1] == OVERRIDE_PREFERENCES
  {
    LoadedFilesInOrder(system, node, fileExists);
  }

  // ---------------------------------------------------------------------
  // The application object

  /** The part of `Peppy`'s state the start-up logic changes: the command
      line, the verbosity, the configuration directory, the flags, and the
      arguments collected from another instance. */
  class Peppy {
    var argv: seq<string>
    var verbose: nat
    var confdir: string
    var flags: Flags
    var remoteArgs: seq<string>

    constructor(argv: seq<string>)
      ensures this.argv == argv && verbose == 0 && confdir == "" && remoteArgs == []
      ensures flags == Flags(None, None, None)
    {
      this.argv := argv;
      this.verbose := 0;
      this.confdir := "";
      this.flags := Flags(None, None, None);
      this.remoteArgs := [];
    }

    /** The `-v` loop of `bootstrapCommandLineOptions`: every `-v` is
        deleted and counted. */
    method CountVerbose()
      modifies this`argv, this`verbose
      ensures argv == Without(old(argv), "-v")
      ensures verbose == Count(old(argv), "-v")
    {
      verbose := 0;
      while "-v" in argv
        invariant Without(argv, "-v") == Without(old(argv), "-v")
        invariant verbose + Count(argv, "-v") == Count(old(argv), "-v")
        decreases |argv|
      {
        var index := IndexOf(argv, "-v");
        verbose := verbose + 1;
        CountRemoveAt(argv, index, "-v");
        WithoutRemoveAt(argv, index, "-v");
        argv := RemoveAt(argv, index);
      }
      WithoutNone(argv, "-v");
      WithoutSpec(argv, "-v", "-v");
    }

    /** The `-c` part of `bootstrapCommandLineOptions`, with the guard
        corrected. */
    method TakeConfDir()
      modifies this`argv, this`confdir
      ensures (argv, confdir) == ConfDir(old(argv))
    {
      confdir := "";
      if "-c" in argv {
        var index := IndexOf(argv, "-c");
        if |argv| > index + 1 {
          confdir := argv[index + 1];
          argv := argv[..index] + argv[index + 2..];
        }
      }
    }

    /** `if x in sys.argv: del sys.argv[sys.argv.index(x)]`, telling whether
        `x` was there. */
    method RemoveOption(x: string) returns (found: bool)
      modifies this`argv
      ensures found == (x in old(argv))
      ensures argv == RemoveFirst(old(argv), x)
    {
      found := x in argv;
      if found {
        var index := IndexOf(argv, x);
        argv := RemoveAt(argv, index);
      }
    }

    /** The flag options of `bootstrapCommandLineOptions`. */
    method TakeFlags()
      modifies this`argv, this`flags
      ensures argv == FlagArgs(old(argv))
      ensures flags == FlagsAfter(old(argv), old(flags))
    {
      var noServer := RemoveOption("--no-server");
      if noServer {
        flags := flags.(noServerOption := Some(false));
      }
      if "--test" in argv || "-t" in argv {
        flags := flags.(noServerOption := Some(false));
      }
      var noSetuptools := RemoveOption("--no-setuptools");
      if noSetuptools {
        flags := flags.(noSetuptools := Some(true));
      }
      var noSplash := RemoveOption("--no-splash");
      if noSplash {
        flags := flags.(noSplash := Some(true));
      }
    }

    /** `Peppy.bootstrapCommandLineOptions`, with the `-c` guard corrected;
        `HomeConfigDir(confdir)` and `setVerbosity` are left to the
        caller. */
    method Bootstrap()
      modifies this`argv, this`verbose, this`confdir, this`flags
      ensures verbose == Count(old(argv), "-v")
      ensures confdir == ConfDir(Without(old(argv), "-v")).1
      ensures flags == FlagsAfter(ConfDir(Without(old(argv), "-v")).0, old(flags))
      ensures argv == FlagArgs(ConfDir(Without(old(argv), "-v")).0)
    {
      CountVerbose();
      TakeConfDir();
      TakeFlags();
    }

    /** `Peppy.loadRemoteArgs(arg)`: arguments are collected until the end
        marker, which hands the file names on and starts a new collection. */
    method LoadRemoteArgs(arg: RemoteArg, requestsInNewFrame: bool) returns (request: Request)
      modifies this`remoteArgs
      ensures arg.Arg? ==> remoteArgs == old(remoteArgs) + [arg.arg] && request == Collecting
      ensures arg.Eof? ==> remoteArgs == []
      ensures arg.Eof? && requestsInNewFrame ==> request == NewFrame(FileArgs(old(remoteArgs)))
      ensures arg.Eof? && !requestsInNewFrame ==> request == OpenInTopFrame(FileArgs(old(remoteArgs)))
    {
      if arg.Arg? {
        remoteArgs := remoteArgs + [arg.arg];
        request := Collecting;
      } else {
        var args := FileArgs(remoteArgs);
        if requestsInNewFrame {
          request := NewFrame(args);
        } else {
          request := OpenInTopFrame(args);
        }
        remoteArgs := [];
      }
    }

    /** `Peppy.loadConfig`: each configuration file that exists is read, in
        order; the list of files read is returned. */
    method LoadConfig(system: string, node: string, fileExists: string -> bool) returns (loaded: seq<string>)
      ensures loaded == LoadedFiles(system, node, fileExists)
    {
      var files := [BASE_PREFERENCES, system + ".cfg", node + ".cfg", OVERRIDE_PREFERENCES];
      loaded := [];
      for k := 0 to |files|
        invariant loaded == Filter(files[..k], fileExists)
      {
        assert files[..k + 1][..k] == files[..k];
        if fileExists(files[k]) {
          loaded := loaded + [files[k]];
        }
      }
      assert files[..|files|] == files;
    }
  }
}
