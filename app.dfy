/**
 * The launcher window's state (`BxtLauncher` in src/main.rs) without its UI: the
 * configuration the text fields edit and the status line. What is modelled is
 * how a dropped file and the three file pickers fill in the paths, and how the
 * Run button sets the status. The file names are the Windows ones.
 */
module App {
  import opened Wrappers
  import opened Errors
  import opened Configuration
  import opened Launcher
  import opened Paths

  const HL_EXE_FILE_NAME := "hl.exe"
  const BXT_FILE_NAME := "BunnymodXT.dll"
  const BXT_RS_FILE_NAME := "bxt_rs.dll"
  const DLL_EXTENSION := "dll"

  const IDLE := "Idle"
  const OK := "OK"

  /** A file dropped onto the window; a drop need not carry a path. */
  datatype DroppedFile = DroppedFile(path: Option<string>)

  /**
   * The configuration after a file with that path is routed by its exact file
   * name into the executable, BunnymodXT or bxt-rs path. The three names differ,
   * so at most one field changes.
   */
  function Route(c: Config, path: string): (r: Config)
    ensures r == c || r == c.(hlexe := path) || r == c.(bxt := path) || r == c.(bxtRs := path)
    ensures FileName(path) == Some(HL_EXE_FILE_NAME) ==> r == c.(hlexe := path)
    ensures FileName(path) == Some(BXT_FILE_NAME) ==> r == c.(bxt := path)
    ensures FileName(path) == Some(BXT_RS_FILE_NAME) ==> r == c.(bxtRs := path)
    ensures FileName(path) !in {Some(HL_EXE_FILE_NAME), Some(BXT_FILE_NAME), Some(BXT_RS_FILE_NAME)} ==> r == c
  {
    var name := FileName(path);
    var afterHl := if name == Some(HL_EXE_FILE_NAME) then c.(hlexe := path) else c;
    var afterBxt := if name == Some(BXT_FILE_NAME) then afterHl.(bxt := path) else afterHl;
    if name == Some(BXT_RS_FILE_NAME) then afterBxt.(bxtRs := path) else afterBxt
  }

  /** The configuration after a drop: only a drop of exactly one file that has a path is looked at. */
  function Dropped(c: Config, dropped: seq<DroppedFile>): Config
  {
    if |dropped| == 1 && dropped[0].path.Some? then Route(c, dropped[0].path.value) else c
  }

  /** The executable picker keeps a file only when it is named exactly `hl.exe`. */
  predicate AcceptsHlExe(path: string)
  {
    FileName(path) == Some(HL_EXE_FILE_NAME)
  }

  /** The BunnymodXT and bxt-rs pickers keep any file whose extension is exactly `dll`. */
  predicate AcceptsDll(path: string)
  {
    Extension(path) == Some(DLL_EXTENSION)
  }

  /** The status line after Run: "OK", or the error's display. */
  function StatusAfterRun(r: Result<(), LauncherError>): (s: string)
    ensures s == OK <==> r.Ok?
    ensures r.Err? ==> s == Display(r.error)
    ensures s != IDLE
  {
    match r
    case Ok(_) => OK
    case Err(e) => DisplayIsNoStatusWord(e); Display(e)
  }

  /** The status line after Run tells the result exactly. */
  lemma StatusNamesResult(a: Result<(), LauncherError>, b: Result<(), LauncherError>)
    requires StatusAfterRun(a) == StatusAfterRun(b)
    ensures a == b
  {
    if a.Err? && b.Err? {
      DisplayInjective(a.error, b.error);
    } else if a.Ok? && b.Ok? {
      assert a.value == b.value;
    }
  }

  class BxtLauncher {
    var config: Config
    var status: string

    constructor (config: Config)
      ensures this.config == config && status == IDLE
    {
      this.config := config;
      status := IDLE;
    }

    /** Collect the dropped files. */
    method DropFiles(dropped: seq<DroppedFile>)
      modifies this
      ensures config == Dropped(old(config), dropped) && status == old(status)
    {
      if |dropped| == 1 {
        var item := dropped[0];
        if item.path.Some? {
          var path := item.path.value;
          var name := FileName(path);
          if name == Some(HL_EXE_FILE_NAME) {
            config := config.(hlexe := path);
          }
          if name == Some(BXT_FILE_NAME) {
            config := config.(bxt := path);
          }
          if name == Some(BXT_RS_FILE_NAME) {
            config := config.(bxtRs := path);
          }
        }
      }
    }

    /** The "+" button of the executable row; `picked` is what the file dialog returned. */
    method PickHlExe(picked: Option<string>)
      modifies this
      ensures picked.Some? && AcceptsHlExe(picked.value) ==> config == old(config).(hlexe := picked.value)
      ensures !(picked.Some? && AcceptsHlExe(picked.value)) ==> config == old(config)
      ensures status == old(status)
    {
      if picked.Some? {
        var path := picked.value;
        if FileName(path) == Some(HL_EXE_FILE_NAME) {
          config := config.(hlexe := path);
        }
      }
    }

    /** The "+" button of the BunnymodXT row. */
    method PickBxt(picked: Option<string>)
      modifies this
      ensures picked.Some? && AcceptsDll(picked.value) ==> config == old(config).(bxt := picked.value)
      ensures !(picked.Some? && AcceptsDll(picked.value)) ==> config == old(config)
      ensures status == old(status)
    {
      if picked.Some? {
        var path := picked.value;
        if Extension(path) == Some(DLL_EXTENSION) {
          config := config.(bxt := path);
        }
      }
    }

    /** The "+" button of the bxt-rs row. */
    method PickBxtRs(picked: Option<string>)
      modifies this
      ensures picked.Some? && AcceptsDll(picked.value) ==> config == old(config).(bxtRs := picked.value)
      ensures !(picked.Some? && AcceptsDll(picked.value)) ==> config == old(config)
      ensures status == old(status)
    {
      if picked.Some? {
        var path := picked.value;
        if Extension(path) == Some(DLL_EXTENSION) {
          config := config.(bxtRs := path);
        }
      }
    }

    /** The Run button: launch with the current configuration and show the outcome. */
    method Run(env: Env)
      modifies this
      ensures config == old(config)
      ensures status == StatusAfterRun(Launch(old(config), env).result)
    {
      var r, _ := RunBxt(config, env);
      match r {
        case Ok(_) => status := OK;
        case Err(err) => status := Display(err);
      }
    }
  }

  /** A name the three pickers and the drop handler see as a plain file name. */
  predicate PlainName(name: string)
  {
    NoSeparator(name) && name != [] && name != "." && name != ".."
  }

  /** A single dropped file with a path is routed by its file name alone. */
  lemma DropRoutesByName(c: Config, path: string)
    ensures Dropped(c, [DroppedFile(Some(path))]) ==
      if FileName(path) == Some(HL_EXE_FILE_NAME) then c.(hlexe := path)
      else if FileName(path) == Some(BXT_FILE_NAME) then c.(bxt := path)
      else if FileName(path) == Some(BXT_RS_FILE_NAME) then c.(bxtRs := path)
      else c
  {
    assert Dropped(c, [DroppedFile(Some(path))]) == Route(c, path);
    var name := FileName(path);
    if name == Some(HL_EXE_FILE_NAME) {
    } else if name == Some(BXT_FILE_NAME) {
    } else if name == Some(BXT_RS_FILE_NAME) {
    } else {
      assert name !in {Some(HL_EXE_FILE_NAME), Some(BXT_FILE_NAME), Some(BXT_RS_FILE_NAME)};
    }
  }

  /**
   * A file dropped from any folder sets the path its exact name selects, and
   * nothing when its name is none of the three.
   */
  lemma DropFromAnyFolder(c: Config, dir: string, sep: char, name: string)
    requires IsSeparator(sep) && PlainName(name)
    ensures var path := dir + [sep] + name;
      Dropped(c, [DroppedFile(Some(path))]) ==
        if name == HL_EXE_FILE_NAME then c.(hlexe := path)
        else if name == BXT_FILE_NAME then c.(bxt := path)
        else if name == BXT_RS_FILE_NAME then c.(bxtRs := path)
        else c
  {
    FileNameOfJoin(dir, sep, name);
    DropRoutesByName(c, dir + [sep] + name);
  }

  /** The executable picker keeps a file from any folder exactly when it is named `hl.exe`. */
  lemma HlExePickerWantsExactName(dir: string, sep: char, name: string)
    requires IsSeparator(sep) && PlainName(name)
    ensures AcceptsHlExe(dir + [sep] + name) <==> name == HL_EXE_FILE_NAME
  {
    FileNameOfJoin(dir, sep, name);
  }

  /**
   * The module pickers keep a file from any folder exactly when the part of its
   * name after the last dot is `dll`, compared case-sensitively.
   */
  lemma DllPickerWantsExtension(dir: string, sep: char, stem: string, ext: string)
    requires IsSeparator(sep) && NoSeparator(stem) && NoSeparator(ext)
    requires stem != [] && stem != "." && '.' !in ext
    ensures AcceptsDll(dir + [sep] + (stem + "." + ext)) <==> ext == DLL_EXTENSION
  {
    ExtensionOfJoin(dir, sep, stem, ext);
  }

  /** `HL.EXE` is refused by the executable picker. */
  lemma HlExePickerIsCaseSensitive(dir: string, sep: char)
    requires IsSeparator(sep)
    ensures !AcceptsHlExe(dir + [sep] + "HL.EXE")
  {
    HlExePickerWantsExactName(dir, sep, "HL.EXE");
  }

  /**
   * A drop needs the exact name while the module pickers take any `.dll`: a
   * renamed `BunnymodXT-old.dll`, which the picker keeps, is ignored when dropped.
   */
  lemma RenamedDllIsNotDropped(c: Config, dir: string, sep: char, stem: string)
    requires IsSeparator(sep) && NoSeparator(stem) && stem != [] && stem != "."
    requires stem + "." + DLL_EXTENSION != BXT_FILE_NAME && stem + "." + DLL_EXTENSION != BXT_RS_FILE_NAME
    ensures Dropped(c, [DroppedFile(Some(dir + [sep] + (stem + "." + DLL_EXTENSION)))]) == c
  {
    ExtensionOfJoin(dir, sep, stem, DLL_EXTENSION);
    DllNameIsNotHlExe(stem);
    DropRoutesByName(c, dir + [sep] + (stem + "." + DLL_EXTENSION));
  }

  lemma DllNameIsNotHlExe(stem: string)
    ensures stem + "." + DLL_EXTENSION != HL_EXE_FILE_NAME
  {
    var name := stem + "." + DLL_EXTENSION;
    assert name[|name| - 1] == 'l';
  }
}
