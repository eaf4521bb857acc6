# bxt-launcher, modelled in Dafny

bxt-launcher is a small Windows GUI that starts Half-Life with the speedrunning
tools bxt-rs and BunnymodXT injected. `run_bxt` starts `hl.exe` suspended and
creates the named event "BunnymodXT-Injector". For each enabled module, bxt-rs
first, it injects the DLL, waits until the module sets the event and resets the
event. It then resumes the game's main thread and closes the thread and process
handles. The window keeps a `Config` (executable, module paths and switches, mod,
extra options) that dropped files and three file pickers fill in, plus a status line.

The model covers:

- `Errors` (errors.dfy): `LauncherError`, its `From` conversions and its display strings.
- `Wide` (wide.dfy): `to_wide`, the NUL-terminated UTF-16 buffer handed to the Windows API.
- `Configuration` (config.dfy): `Config` and `ConfigWithProfiles` with their defaults.
  It also covers the settings path beside the executable, and `load_from_default` with
  its backup of a file that fails to parse, over a `FileStore` class holding a map
  from paths to contents. `write_to_default` is modelled the same way.
- `Launcher` (launcher.dfy): `run_bxt` as the method `RunBxt`.
  - Every operating-system and injector call is answered by an `Env`, an oracle fixed before the run.
  - Every call made is recorded as an `Action` in a trace.
  - `RunBxt` is proved to return exactly the closed form `Launch`.
  - The non-Windows stub is `RunBxtStub`.
- `Protocol` (protocol.dfy): the launch protocol, proved about `Launch`:
  - the checks made before any call;
  - injection in list order, each module waited for and the event reset;
  - resume at most once and only after every module;
  - which handles are closed;
  - that every error names the call that failed.
- `Paths` (paths.dfy): `Path::file_name` and `Path::extension` for Windows paths,
  which the drop handler and the pickers use.
- `App` (app.dfy): the `BxtLauncher` window state as a class. It models the
  drop routing, the three pickers' acceptance checks, the Run button's status update
  and the initial status "Idle". The file names are the Windows ones.

Four facts about the error paths of `run_bxt`:

- On an error after the spawn and before the resume, no handle is closed.
- The event handle is never closed, even on success.
- A module that is not a regular file is reported as `FileDoesNotExist`.
- A failed wait is reported as `InjectionFailed`.

## Model

| member | source | states |
|---|---|---|
| Errors.FromWindows | src/error.rs:35-40 | a Windows API error becomes `WindowsAPI`, keeping the error as its source |
| Errors.FromIo | src/error.rs:42-46 | an I/O error becomes `IOError`, keeping the error as its source |
| Errors.FromInject | src/error.rs:48-53 | an injector error becomes `InjectError`, keeping the error as its source |
| Errors.FromTomlDe | src/error.rs:55-59 | a TOML decode error becomes `TomlParsingError` |
| Errors.FromTomlSer | src/error.rs:61-65 | a TOML encode error becomes `TomlWritingError`, keeping the error as its source |
| Errors.Display | src/error.rs:3-33 | each display is the variant's prefix followed by its payload; `NoHLExe` shows "No given Half-Life executable path" and `FileDoesNotExist` shows "File does not exist: " and the path |
| Errors.DisplayNamesVariant | src/error.rs:3-33 | every display starts with its variant's prefix, and that prefix identifies the variant |
| Errors.DisplayInjective | src/error.rs:3-33 | two errors with the same display text are of the same variant and carry the same displayed payload |
| Errors.DisplayIsNoStatusWord | src/error.rs:3-33 | no error displays as "OK" or "Idle" |
| Wide.EncodeWide | src/utils.rs:66-67 | a string of n characters encodes to between n and 2n UTF-16 units |
| Wide.EncodeChar | src/utils.rs:65-71 | a character is one or two UTF-16 units, and the first is 0 only for NUL |
| Wide.ToWide | src/utils.rs:65-71 | the buffer is the UTF-16 units of the string followed by one terminating 0 |
| Wide.EncodeWideRoundTrip | src/utils.rs:65-71 | UTF-16 decoding gives back the encoded string |
| Wide.EncodeWideNoZero | src/utils.rs:65-71 | a string without NUL encodes with no 0 unit |
| Wide.ToWideReadsBack | src/utils.rs:65-71 | a string without NUL is read back from its buffer, up to the first 0, unchanged |
| Wide.EncodeWideOneUnitEach | src/utils.rs:66-67 | a string of characters below 0x10000 encodes to one unit per character, equal to its code |
| Wide.ToWideOfUnits | src/utils.rs:65-71 | such a string's buffer is exactly its codes followed by one 0 |
| Wide.ReadWideOfUnits | src/utils.rs:65-71 | such a string with no NUL is read back from that buffer |
| Configuration.DefaultConfig | src/config.rs:34-47 | empty executable, module paths and extras, mod "valve", both modules enabled, wine off |
| Configuration.DefaultProfiles | src/config.rs:49-56 | profile 0 current, exactly four profiles, each the default configuration |
| Configuration.WithFileName | src/config.rs:109 | the path keeps its directory and gets the new last component |
| Configuration.ConfigPath | src/config.rs:90-93 | `bxt_launcher.toml` in the executable's directory, or the bare name when the executable path is unknown |
| Configuration.DecimalString | src/config.rs:108 | the decimal text of the hash has only digits and no leading zero |
| Configuration.DecimalRoundTrip | src/config.rs:108 | the decimal text of a number reads back as that number |
| Configuration.BackupBesideConfig | src/config.rs:103-110 | the backup `<hash>_bxt_launcher.toml` is in the settings file's directory, at a different path, and distinct hashes give distinct names |
| Configuration.Renamed | src/config.rs:109 | the contents of an existing file move to the new path, which is the only new key, and the old path is gone unless it is the new one; a missing file changes nothing |
| Configuration.FileStore.Rename | src/config.rs:109 | a failed rename changes nothing; a successful one moves the entry |
| Configuration.RenamedMovesOnlyThatFile | src/config.rs:109 | after the rename the settings file is gone, the backup holds its contents, and every other file is unchanged |
| Configuration.FileStore.LoadFromDefault | src/config.rs:89-113 | a parse result other than `TomlParsingError` is returned unchanged with no rename; on `TomlParsingError` the file is renamed to its backup and the parse error returned; a failed rename returns `IOError` instead |
| Configuration.FileStore.WriteToDefault | src/config.rs:115-122 | writes the serialised settings to the settings path; an open failure changes nothing; a serialise or write failure returns its error and leaves the file truncated |
| Launcher.Modules | src/utils.rs:88-111 | the list is bxt-rs if enabled then BunnymodXT if enabled; it fails exactly when an enabled module is not a regular file, naming bxt-rs first |
| Launcher.FirstFailure | src/utils.rs:150-165 | the first module, from a position on, whose open, inject, wait or reset fails; every module before it succeeds |
| Launcher.RunBxt | src/utils.rs:54-174 | returns the result and the calls that `Launch` states |
| Launcher.ModulesToInject | src/utils.rs:88-111 | builds the module list by pushing and early returns, and equals `Modules` |
| Launcher.GameMod | src/utils.rs:115-119 | the mod passed is never empty, and is the configured one when that is not empty |
| Launcher.CommandLine | src/utils.rs:121 | the argument string is `-game `, the mod, one space, then the extra options, and nothing else |
| Launcher.Arguments | src/utils.rs:115-121 | the argument string holds the mod and ends with the extra options; with none it ends in a space |
| Launcher.CreateProcessCall | src/utils.rs:113-142 | the flags are 0x0C (`CREATE_SUSPENDED \| DETACHED_PROCESS`); the executable reads back from its buffer; with no NUL, the arguments read back as `-game `, the mod or "valve" when it is empty, a space, then the extras |
| Launcher.SpawnArgumentsReadBack | src/utils.rs:114-122 | the game reads the executable and `-game <mod> <extras>` back from the wide strings; with no extras the argument string ends in a space |
| Launcher.SpawnAndInject | src/utils.rs:113-147 | spawn, then event creation, each stopping with a `WindowsAPI` error on failure, then the injections |
| Launcher.InjectModule | src/utils.rs:151-163 | one module's open, inject, wait and reset, stopping at the first failure with `IOError`, `InjectError`, `InjectionFailed` or `WindowsAPI` |
| Launcher.InjectAndResume | src/utils.rs:149-173 | the loop over the modules agrees with `Injected`: it stops at the first failing module, or resumes after all of them |
| Launcher.ResumeAndClose | src/utils.rs:167-173 | resume ignoring its return value, close the thread handle, then the process handle, stopping at the first failed close |
| Launcher.CreateEventCall | src/utils.rs:146-147 | the event is created auto-reset and not signalled, with the wide name buffer |
| Launcher.EventNameIsWide | src/utils.rs:146 | the name buffer is the UTF-16 encoding of "BunnymodXT-Injector" with its terminating 0 |
| Launcher.EventNameReadBack | src/utils.rs:146-147 | the name the `CreateEventW` call carries reads back as "BunnymodXT-Injector" |
| Launcher.Launch | src/utils.rs:84-173 | no call is made exactly when the executable is empty or a module check fails; otherwise the first call is the spawn |
| Launcher.RunBxtStub | src/utils.rs:27-51 | off Windows, `Ok` exactly when an executable is given, otherwise `NoHLExe` |
| Protocol.LaunchPhases | src/utils.rs:84-147 | a launch that stops before the injections makes no call, only the spawn, or the spawn and the event creation, each with its error |
| Protocol.ChecksBeforeSpawn | src/utils.rs:84-142 | no call before the executable and module checks pass; then the first call is the only spawn, with flags 0x0C |
| Protocol.ResumeOnlyAfterEveryModule | src/utils.rs:150-168 | the thread is resumed exactly when every module's cycle succeeded, at most once, and a resumed run injected every listed module |
| Protocol.ResumedRunRanEveryCycle | src/utils.rs:113-168 | a run that resumed made, in order, the spawn and the event creation, one complete cycle per listed module in list order, then the resume and the closes |
| Protocol.HandlesClosedOnlyAfterResume | src/utils.rs:141-171 | the event handle is never closed; no handle is closed in a run that did not resume; a failed thread-handle close leaves the process handle open |
| Protocol.InjectionOrder | src/utils.rs:88-165 | the injected modules are a prefix of the list in order; all of them on success, bxt-rs before BunnymodXT |
| Protocol.SucceedsExactlyWhenEveryCallDoes | src/utils.rs:54-174 | success exactly when every call succeeds; the calls are then the spawn, the event, one open-inject-wait-reset cycle per module in order, the resume and the two closes |
| Protocol.ErrorNamesFailedCall | src/utils.rs:84-171 | only `NoHLExe` and `FileDoesNotExist` fail with no call made; every other error matches the last call made |
| Protocol.WaitFailureIsInjectionFailed | src/utils.rs:156-160 | `InjectionFailed` exactly when the first failing module's wait returned `WAIT_FAILED` after its open and inject succeeded |
| Protocol.ResumeCountIgnored | src/utils.rs:168 | what `ResumeThread` returns changes neither the result nor the calls |
| Protocol.EmptyGameModIsValve | src/utils.rs:115-119 | an empty mod launches exactly as "valve" |
| Protocol.DefaultConfigLaunchesNothing | src/utils.rs:84-86 | the default configuration fails with `NoHLExe` and makes no call, on either platform |
| Protocol.ExecutableAloneIsNotEnough | src/utils.rs:92-99 | a default profile with only the executable set fails with `FileDoesNotExist` for bxt-rs's empty path and makes no call, since an empty path is never an existing file |
| Protocol.StubAgreesOnMissingExecutable | src/utils.rs:42-44 | the stub fails exactly when the Windows launcher fails for want of an executable |
| Paths.FileName | src/main.rs:176-179 | a file name, when there is one, is non-empty, is not `.` or `..`, and has no separator |
| Paths.Extension | src/main.rs:113 | an extension exists only for a path with a file name, has no dot, and is what follows the name's last dot, which is not its first character |
| Paths.LastName | src/main.rs:177-179 | a file name is non-empty, is not `.` or `..`, and has no separator |
| Paths.FileNameOfJoin | src/main.rs:177-179 | a plain name joined onto any directory, with or without a trailing separator, is that path's file name |
| Paths.ExtensionOfJoin | src/main.rs:113 | a file's extension is what follows the last dot of its name |
| Paths.LeadingDotIsNoExtension | src/main.rs:113 | a name whose only dot leads it has no extension |
| Paths.ParentComponentHasNoFileName | src/main.rs:177-179 | a path ending in `..` has no file name |
| App.Route | src/main.rs:176-196 | a path named `hl.exe`, `BunnymodXT.dll` or `bxt_rs.dll` sets exactly the matching field to the full path; any other name changes nothing |
| App.StatusAfterRun | src/main.rs:157-162 | "OK" exactly on success, otherwise the error's display, never "Idle" |
| App.StatusNamesResult | src/main.rs:157-162 | two results with the same status are both `Ok`, or errors of the same variant carrying the same displayed payload |
| App.BxtLauncher.constructor | src/main.rs:49-56 | the window starts with the given configuration and the status "Idle" |
| App.BxtLauncher.DropFiles | src/main.rs:173-199 | only a drop of exactly one file with a path is routed; the status is unchanged |
| App.BxtLauncher.PickHlExe | src/main.rs:89-100 | the executable is taken exactly when its file name is `hl.exe` |
| App.BxtLauncher.PickBxt | src/main.rs:108-117 | the BunnymodXT path is taken exactly when the extension is `dll` |
| App.BxtLauncher.PickBxtRs | src/main.rs:127-136 | the bxt-rs path is taken exactly when the extension is `dll` |
| App.BxtLauncher.Run | src/main.rs:157-162 | the configuration is unchanged and the status is that of the launch's result |
| App.DropRoutesByName | src/main.rs:173-199 | a single dropped path is routed by its file name alone |
| App.DropFromAnyFolder | src/main.rs:173-199 | a file with a plain name dropped from any folder sets the field its exact name selects, or nothing |
| App.HlExePickerWantsExactName | src/main.rs:89-100 | a file from any folder is taken as the executable exactly when named `hl.exe` |
| App.HlExePickerIsCaseSensitive | src/main.rs:93-95 | `HL.EXE` is refused |
| App.DllPickerWantsExtension | src/main.rs:113 | a file from any folder is taken as a module exactly when its extension is `dll`, compared case-sensitively |
| App.RenamedDllIsNotDropped | src/main.rs:184-187 | a renamed `.dll` that the pickers take is ignored when dropped |

## Left out

- The Windows calls and the injector (`CreateProcessW`, `CreateEventW`, `dll_syringe`, `WaitForSingleObject`, `ResetEvent`, `ResumeThread`, `CloseHandle`) are oracles in `Env`. No process, address space or handle is modelled.
- The `INFINITE` wait blocks until the module sets the event. The model has only its returned value, with no timing.
- `dll_syringe`'s `OwnedProcess` closes its own process handle when dropped. That happens inside the library and is not modelled.
- `STARTUPINFOW` and the handle fields of `PROCESS_INFORMATION` are not modelled; only the process id is read.
- TOML decoding and encoding, and the opening, reading and writing of files in `parse_from_file` and `write_to_file`, are oracle outcomes.
- Configuration.FileStore.WriteToDefault: a write that fails partway is modelled as leaving the truncated, empty file, not a partial one.
- The backup name's hash of `SystemTime::now()` is an arbitrary `u64` parameter.
- `use_wine` is carried but unused, as in the code, including the commented-out wine launch.
- `main` is not modelled. It calls `load_from_default` and `write_to_default` on `Config`, where they are defined on `ConfigWithProfiles`.
- UI rendering is not modelled: egui layout, text fields, check boxes, the drop preview painting and the file dialogs. Only the dialogs' accept checks are kept.
- `Arc<Mutex<_>>` locking is left out: the model's window owns its configuration.
- Paths: UNC and verbatim prefixes (`\\server\share`, `\\?\`) are not modelled. Only a drive prefix `X:` is stripped before the file name is taken.
- Paths are strings. The drop handler's `to_str().unwrap()` panics on a path that is not valid Unicode; that is not modelled, and `display()` and `to_str()` are taken to give the same string.
- The non-Windows file names (`hl_linux`, `libBunnymodXT.so`, `libbxt_rs.so`) are not modelled. The constants are fixed to the Windows ones.
- `WindowsAPI`, `InjectError` and `InjectionFailed` exist only in Windows builds. The model has them on every platform.
- `usize` and `u32` widths are unbounded naturals. The process id and the module count cannot overflow in the code.
- `Launcher.RunBxtStub` is a function; it makes no call, so it has no trace.
- A foreign error (Windows, I/O, injector, TOML) is kept only as its display text (`message`), so two such errors with the same text are equal in the model.
- Configuration.Renamed: renaming a missing file is a success that changes nothing, where `std::fs::rename` fails. This is reachable because the parse outcome is an oracle independent of the files.
- Paths are modelled twice: as component lists (`PathBuf`) for the settings and backup paths, and as strings for the drop handler and the pickers. The two are not connected.
