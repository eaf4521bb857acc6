/**
 * The persisted settings (src/config.rs): the `Config` and `ConfigWithProfiles`
 * records with their defaults, the location of the settings file next to the
 * executable, and loading with a backup of a file that fails to parse.
 *
 * The file system is a `FileStore`: a map from paths to contents. TOML parsing and
 * serialisation, the opening, reading and writing of files, and the time-based hash
 * of the backup name are outcomes handed in by the caller.
 */
module Configuration {
  import opened Wrappers
  import opened Errors

  /** `Config`: one launch profile. */
  datatype Config = Config(
    hlexe: string,
    bxt: string,
    enableBxt: bool,
    bxtRs: string,
    enableBxtRs: bool,
    gamemod: string,
    extras: string,
    useWine: bool)

  /** `ConfigWithProfiles`: the profiles and the index of the one in use. */
  datatype ConfigWithProfiles = ConfigWithProfiles(currentProfile: nat, configs: seq<Config>)

  const DEFAULT_GAMEMOD := "valve"
  const PROFILE_COUNT := 4

  /** `Config::default`. */
  function DefaultConfig(): (c: Config)
    ensures c.hlexe == [] && c.bxt == [] && c.bxtRs == [] && c.extras == []
    ensures c.gamemod == DEFAULT_GAMEMOD
    ensures c.enableBxt && c.enableBxtRs && !c.useWine
  {
    Config("", "", true, "", true, DEFAULT_GAMEMOD, "", false)
  }

  /** `ConfigWithProfiles::default`: four default profiles, the first one current. */
  function DefaultProfiles(): (p: ConfigWithProfiles)
    ensures p.currentProfile == 0 && |p.configs| == PROFILE_COUNT
    ensures forall i :: 0 <= i < |p.configs| ==> p.configs[i] == DefaultConfig()
    ensures p.currentProfile < |p.configs|
  {
    ConfigWithProfiles(0, seq(PROFILE_COUNT, _ => DefaultConfig()))
  }

  /** A path as its components: `["C:", "games", "launcher.exe"]`. */
  type PathBuf = seq<string>

  const CONFIG_FILE_NAME := "bxt_launcher.toml"

  /** `Path::parent`, for a path that has one. */
  function Parent(p: PathBuf): PathBuf
    requires |p| > 0
  {
    p[..|p| - 1]
  }

  /** `Path::with_file_name`: the same directory, another last component. */
  function WithFileName(p: PathBuf, name: string): (r: PathBuf)
    requires |p| > 0
    ensures |r| == |p| && Parent(r) == Parent(p) && r[|r| - 1] == name
  {
    Parent(p) + [name]
  }

  /**
   * The settings file used by both `load_from_default` and `write_to_default`:
   * `bxt_launcher.toml` in the directory of the running executable, or the bare
   * relative name when `env::current_exe` fails (`exe == None`). The executable
   * path always has a parent (the source unwraps it).
   */
  function ConfigPath(exe: Option<PathBuf>): (p: PathBuf)
    requires exe.Some? ==> |exe.value| > 0
    ensures |p| > 0 && p[|p| - 1] == CONFIG_FILE_NAME
    ensures exe.Some? ==> Parent(p) == Parent(exe.value)
    ensures exe.None? ==> p == [CONFIG_FILE_NAME]
  {
    match exe
    case Some(path) => Parent(path) + [CONFIG_FILE_NAME]
    case None => [CONFIG_FILE_NAME]
  }

  /** The `u64` that `DefaultHasher::finish` returns. */
  newtype u64 = x: int | 0 <= x < 0x1_0000_0000_0000_0000

  function Digit(d: nat): char
    requires d < 10
  {
    "0123456789"[d]
  }

  /** `format!("{}", n)` for an unsigned integer: decimal, no leading zeros. */
  function DecimalString(n: nat): (s: string)
    ensures |s| > 0
    ensures forall i :: 0 <= i < |s| ==> '0' <= s[i] <= '9'
    ensures |s| > 1 ==> s[0] != '0'
  {
    if n < 10 then [Digit(n)] else DecimalString(n / 10) + [Digit(n % 10)]
  }

  function DecimalValue(s: string): nat
  {
    if s == [] then 0
    else
      var c := s[|s| - 1];
      DecimalValue(s[..|s| - 1]) * 10 + (if '0' <= c <= '9' then c as int - '0' as int else 0)
  }

  /** The decimal text of a number reads back as that number. */
  lemma {:induction false} DecimalRoundTrip(n: nat)
    ensures DecimalValue(DecimalString(n)) == n
  {
    var s := DecimalString(n);
    if n >= 10 {
      DecimalRoundTrip(n / 10);
      assert s[..|s| - 1] == DecimalString(n / 10);
    }
  }

  /** The backup name `"<hash>_bxt_launcher.toml"`. */
  function BackupName(hash: u64): string
  {
    DecimalString(hash as nat) + "_" + CONFIG_FILE_NAME
  }

  /** The backup sits beside the settings file and never replaces it, and distinct hashes give distinct names. */
  lemma BackupBesideConfig(exe: Option<PathBuf>, hash: u64, other: u64)
    requires exe.Some? ==> |exe.value| > 0
    ensures Parent(WithFileName(ConfigPath(exe), BackupName(hash))) == Parent(ConfigPath(exe))
    ensures WithFileName(ConfigPath(exe), BackupName(hash)) != ConfigPath(exe)
    ensures BackupName(hash) == BackupName(other) ==> hash == other
  {
    var p := ConfigPath(exe);
    var b := WithFileName(p, BackupName(hash));
    assert |BackupName(hash)| > |CONFIG_FILE_NAME|;
    assert b[|b| - 1] != p[|p| - 1];
    if BackupName(hash) == BackupName(other) {
      var d, e := DecimalString(hash as nat), DecimalString(other as nat);
      assert d == BackupName(hash)[..|d|];
      assert e == BackupName(other)[..|e|];
      DecimalRoundTrip(hash as nat);
      DecimalRoundTrip(other as nat);
    }
  }

  /** `files` after `std::fs::rename(from, to)` succeeded: the entry moves, replacing any at `to`. */
  function Renamed(files: map<PathBuf, string>, from: PathBuf, to: PathBuf): (r: map<PathBuf, string>)
    ensures from in files ==> to in r && r[to] == files[from] && (from != to ==> from !in r)
    ensures from in files ==> r.Keys == (files.Keys - {from}) + {to}
    ensures from !in files ==> r == files
  {
    if from in files then (files - {from})[to := files[from]] else files
  }

  /** The file system the settings live in. */
  class FileStore {
    var files: map<PathBuf, string>

    constructor (files: map<PathBuf, string>)
      ensures this.files == files
    {
      this.files := files;
    }

    /** `std::fs::rename`; `failure` is the error the system reports, if any. */
    method Rename(from: PathBuf, to: PathBuf, failure: Option<IoError>) returns (r: Result<(), IoError>)
      modifies this
      ensures failure.Some? ==> r == Err(failure.value) && files == old(files)
      ensures failure.None? ==> r == Ok(()) && files == Renamed(old(files), from, to)
    {
      if failure.Some? {
        return Err(failure.value);
      }
      files := Renamed(files, from, to);
      return Ok(());
    }

    /**
     * `ConfigWithProfiles::load_from_default`. `parse` is `parse_from_file` (open, read,
     * TOML decode) as a function of the path; `hash` is the time-based hash;
     * `renameFailure` is what `std::fs::rename` reports.
     */
    method LoadFromDefault(exe: Option<PathBuf>, parse: PathBuf -> Result<ConfigWithProfiles, LauncherError>,
                           hash: u64, renameFailure: Option<IoError>)
      returns (r: Result<ConfigWithProfiles, LauncherError>)
      requires exe.Some? ==> |exe.value| > 0
      modifies this
      ensures var parsed := parse(ConfigPath(exe));
        !(parsed.Err? && parsed.error.TomlParsingError?) ==> r == parsed && files == old(files)
      ensures var parsed := parse(ConfigPath(exe));
        parsed.Err? && parsed.error.TomlParsingError? && renameFailure.None? ==>
          r == parsed &&
          files == Renamed(old(files), ConfigPath(exe), WithFileName(ConfigPath(exe), BackupName(hash)))
      ensures var parsed := parse(ConfigPath(exe));
        parsed.Err? && parsed.error.TomlParsingError? && renameFailure.Some? ==>
          r == Err(FromIo(renameFailure.value)) && files == old(files)
    {
      var path := ConfigPath(exe);
      var res := parse(path);
      if !(res.Err? && res.error.TomlParsingError?) {
        return res;
      }
      var configName := BackupName(hash);
      var renamed := Rename(path, WithFileName(path, configName), renameFailure);
      if renamed.Err? {
        return Err(FromIo(renamed.error));
      }
      return res;
    }

    /**
     * `ConfigWithProfiles::write_to_default`, through `write_to_file`: open with
     * create and truncate (`openFailure`), serialise (`serialize`), write all and
     * flush (`writeFailure`). A failed write is modelled as leaving the truncated,
     * empty file.
     */
    method WriteToDefault(config: ConfigWithProfiles, exe: Option<PathBuf>, openFailure: Option<IoError>,
                          serialize: ConfigWithProfiles -> Result<string, TomlSerError>,
                          writeFailure: Option<IoError>)
      returns (r: Result<(), LauncherError>)
      requires exe.Some? ==> |exe.value| > 0
      modifies this
      ensures openFailure.Some? ==> r == Err(FromIo(openFailure.value)) && files == old(files)
      ensures openFailure.None? && serialize(config).Err? ==>
        r == Err(FromTomlSer(serialize(config).error)) && files == old(files)[ConfigPath(exe) := ""]
      ensures openFailure.None? && serialize(config).Ok? && writeFailure.Some? ==>
        r == Err(FromIo(writeFailure.value)) && files == old(files)[ConfigPath(exe) := ""]
      ensures openFailure.None? && serialize(config).Ok? && writeFailure.None? ==>
        r == Ok(()) && files == old(files)[ConfigPath(exe) := serialize(config).value]
    {
      var path := ConfigPath(exe);
      if openFailure.Some? {
        return Err(FromIo(openFailure.value));
      }
      files := files[path := ""];
      var res := serialize(config);
      if res.Err? {
        return Err(FromTomlSer(res.error));
      }
      if writeFailure.Some? {
        return Err(FromIo(writeFailure.value));
      }
      files := files[path := res.value];
      return Ok(());
    }
  }

  /**
   * After a backup rename, the settings file is gone, the backup holds its old
   * contents, and every other file is as it was.
   */
  lemma RenamedMovesOnlyThatFile(files: map<PathBuf, string>, from: PathBuf, to: PathBuf, other: PathBuf)
    requires from in files && from != to && other != from && other != to
    ensures var after := Renamed(files, from, to);
      from !in after && to in after && after[to] == files[from]
      && (other in after <==> other in files) && (other in files ==> after[other] == files[other])
  {
  }
}
