/**
 * `run_bxt` (src/utils.rs): start Half-Life suspended, inject bxt-rs and then
 * BunnymodXT, wait after each injection for the module to signal the named event
 * "BunnymodXT-Injector", and finally resume the game's main thread.
 *
 * Every operating-system call is answered by an `Env`, an oracle fixed before the
 * run, and each call the launcher makes is recorded as an `Action` in a trace.
 * `RunBxt` is the launcher's code; `Launch` states in closed form what it returns
 * and which calls it makes, and the lemmas below prove the launch protocol about it.
 */
module Launcher {
  import opened Wrappers
  import opened Errors
  import opened Wide
  import opened Configuration

  /** The event bxt-rs and BunnymodXT set once they have finished loading. */
  const EVENT_NAME := "BunnymodXT-Injector"
  /** `to_wide(EVENT_NAME)`: the event name's UTF-16 units and the terminating 0. */
  const EVENT_NAME_WIDE: seq<u16> :=
    [0x42, 0x75, 0x6E, 0x6E, 0x79, 0x6D, 0x6F, 0x64, 0x58, 0x54,
     0x2D, 0x49, 0x6E, 0x6A, 0x65, 0x63, 0x74, 0x6F, 0x72, 0x00]
  const WAIT_FAILURE_REASON := "Failed to wait for resume event"

  const CREATE_SUSPENDED: bv32 := 0x0000_0004
  const DETACHED_PROCESS: bv32 := 0x0000_0008
  const INFINITE: bv32 := 0xFFFF_FFFF
  const WAIT_FAILED: bv32 := 0xFFFF_FFFF

  datatype Handle = ThreadHandle | ProcessHandle | EventHandle

  /** One call into the operating system or the injector. */
  datatype Action =
    | Spawn(application: seq<u16>, arguments: seq<u16>, flags: bv32)   // CreateProcessW
    | CreateEvent(manualReset: bool, initialState: bool, name: seq<u16>) // CreateEventW
    | OpenProcess(pid: nat)                                              // OwnedProcess::from_pid
    | Inject(dll: string)                                                // Syringe::inject
    | Wait(timeout: bv32)                                                // WaitForSingleObject
    | Reset                                                              // ResetEvent
    | Resume                                                             // ResumeThread
    | CloseHandle(handle: Handle)                                        // CloseHandle

  /** The part of `PROCESS_INFORMATION` the launcher reads besides its handles. */
  datatype ProcessInformation = ProcessInformation(processId: nat)

  /** The outcomes of the calls made for the module injected at one position of the list. */
  datatype ModuleOutcome = ModuleOutcome(
    open: Result<(), IoError>,
    inject: Result<(), InjectFailure>,
    wait: bv32,
    reset: Result<(), WindowsError>)

  /** The environment: which paths are regular files, and what each call returns. */
  datatype Env = Env(
    regularFiles: set<string>,
    spawn: Result<ProcessInformation, WindowsError>,
    createEvent: Result<(), WindowsError>,
    outcome: nat -> ModuleOutcome,
    resumeCount: bv32,
    closeThread: Result<(), WindowsError>,
    closeProcess: Result<(), WindowsError>)

  /** What a run returns, together with the calls it made in order. */
  datatype Run = Run(result: Result<(), LauncherError>, trace: seq<Action>)

  /** `path.exists() && path.is_file()`: the empty path never names a file. */
  predicate IsRegularFile(env: Env, path: string)
  {
    path != [] && path in env.regularFiles
  }

  /**
   * The list of modules to inject: bxt-rs if enabled, then BunnymodXT if enabled.
   * An enabled module that is not a regular file is reported (bxt-rs first); a
   * disabled one is not looked at.
   */
  function Modules(c: Config, env: Env): (r: Result<seq<string>, LauncherError>)
    ensures r.Ok? <==> (c.enableBxtRs ==> IsRegularFile(env, c.bxtRs)) && (c.enableBxt ==> IsRegularFile(env, c.bxt))
    ensures r.Ok? ==> r.value == (if c.enableBxtRs then [c.bxtRs] else []) + (if c.enableBxt then [c.bxt] else [])
    ensures r.Err? && c.enableBxtRs && !IsRegularFile(env, c.bxtRs) ==> r.error == FileDoesNotExist(c.bxtRs)
    ensures r.Err? && !(c.enableBxtRs && !IsRegularFile(env, c.bxtRs)) ==> r.error == FileDoesNotExist(c.bxt)
  {
    var first := if c.enableBxtRs then [c.bxtRs] else [];
    if c.enableBxtRs && !IsRegularFile(env, c.bxtRs) then Err(FileDoesNotExist(c.bxtRs))
    else if c.enableBxt && !IsRegularFile(env, c.bxt) then Err(FileDoesNotExist(c.bxt))
    else Ok(first + (if c.enableBxt then [c.bxt] else []))
  }

  /** The mod passed to `-game`: the configured one, or "valve" when it is empty. */
  function GameMod(c: Config): (m: string)
    ensures m != []
    ensures c.gamemod != [] ==> m == c.gamemod
  {
    if c.gamemod == [] then DEFAULT_GAMEMOD else c.gamemod
  }

  /** `format!("-game {gamemod} {extras}")`. */
  function CommandLine(gamemod: string, extras: string): (s: string)
    ensures |s| == 7 + |gamemod| + |extras|
    ensures s[..6] == "-game " && s[6..6 + |gamemod|] == gamemod
    ensures s[6 + |gamemod|] == ' ' && s[7 + |gamemod|..] == extras
  {
    "-game " + gamemod + " " + extras
  }

  /** The argument string the game is started with. */
  function Arguments(c: Config): (s: string)
    ensures |s| == 7 + |GameMod(c)| + |c.extras|
    ensures s[6..|s| - |c.extras| - 1] == GameMod(c) && s[|s| - |c.extras|..] == c.extras
    ensures c.extras == [] ==> s[|s| - 1] == ' '
  {
    CommandLine(GameMod(c), c.extras)
  }

  /** The `CreateProcessW` call: the executable, the argument string, suspended and detached. */
  function SpawnAction(c: Config): Action
  {
    Spawn(ToWide(c.hlexe), ToWide(Arguments(c)), CREATE_SUSPENDED | DETACHED_PROCESS)
  }

  /** `CreateEventW(None, false, false, "BunnymodXT-Injector")`: an auto-reset event, initially unset. */
  function CreateEventAction(): Action
  {
    CreateEvent(false, false, EVENT_NAME_WIDE)
  }

  /** The event is created with the buffer `to_wide` makes of its name. */
  lemma EventNameIsWide()
    ensures ToWide(EVENT_NAME) == EVENT_NAME_WIDE
  {
    ToWideOfUnits(EVENT_NAME, EVENT_NAME_WIDE);
  }

  /** The name `CreateEventW` reads from the event creation's wide buffer is exactly "BunnymodXT-Injector". */
  lemma EventNameReadBack()
    ensures CreateEventAction().CreateEvent? && ReadWide(CreateEventAction().name) == Some(EVENT_NAME)
  {
    ReadWideOfUnits(EVENT_NAME, EVENT_NAME_WIDE);
  }

  /**
   * The game sees, through the wide strings, the configured executable and the
   * argument string `-game <mod> <extras>`; the space before the extras is kept
   * even when there are none.
   */
  lemma SpawnArgumentsReadBack(c: Config)
    requires '\0' !in c.hlexe && '\0' !in c.gamemod && '\0' !in c.extras
    ensures ReadWide(SpawnAction(c).application) == Some(c.hlexe)
    ensures ReadWide(SpawnAction(c).arguments) == Some(Arguments(c))
    ensures c.extras == [] ==> Arguments(c)[|Arguments(c)| - 1] == ' '
  {
    ToWideReadsBack(c.hlexe);
    assert '\0' !in Arguments(c) by {
      assert '\0' !in DEFAULT_GAMEMOD;
    }
    ToWideReadsBack(Arguments(c));
  }

  /** The calls made before the first injection, once the spawn succeeded. */
  function Prologue(c: Config): seq<Action>
  {
    [SpawnAction(c), CreateEventAction()]
  }

  /** The four calls for one module whose injection, wait and reset all succeed. */
  function Cycle(pid: nat, dll: string): seq<Action>
  {
    [OpenProcess(pid), Inject(dll), Wait(INFINITE), Reset]
  }

  /** The cycles of a list of modules, one after the other in list order. */
  function Cycles(pid: nat, dlls: seq<string>): seq<Action>
  {
    if dlls == [] then [] else Cycles(pid, dlls[..|dlls| - 1]) + Cycle(pid, dlls[|dlls| - 1])
  }

  predicate CycleOk(o: ModuleOutcome)
  {
    o.open.Ok? && o.inject.Ok? && o.wait != WAIT_FAILED && o.reset.Ok?
  }

  /** The calls made for a module whose cycle stops at the first failing step. */
  function FailedCycle(pid: nat, dll: string, o: ModuleOutcome): seq<Action>
    requires !CycleOk(o)
  {
    if o.open.Err? then [OpenProcess(pid)]
    else if o.inject.Err? then [OpenProcess(pid), Inject(dll)]
    else if o.wait == WAIT_FAILED then [OpenProcess(pid), Inject(dll), Wait(INFINITE)]
    else Cycle(pid, dll)
  }

  /** The error of the first failing step of a module's cycle. */
  function CycleError(o: ModuleOutcome): LauncherError
    requires !CycleOk(o)
  {
    if o.open.Err? then FromIo(o.open.error)
    else if o.inject.Err? then FromInject(o.inject.error)
    else if o.wait == WAIT_FAILED then InjectionFailed(WAIT_FAILURE_REASON)
    else FromWindows(o.reset.error)
  }

  /** The first position at or after `k`, below `n`, whose cycle fails; `n` if none does. */
  function FirstFailure(env: Env, n: nat, k: nat): (j: nat)
    requires k <= n
    ensures k <= j <= n
    ensures forall m :: k <= m < j ==> CycleOk(env.outcome(m))
    ensures j < n ==> !CycleOk(env.outcome(j))
    decreases n - k
  {
    if k == n then n
    else if !CycleOk(env.outcome(k)) then k
    else FirstFailure(env, n, k + 1)
  }

  /** Resume the thread (its return value is not looked at), then close the thread and the process handles. */
  function Finish(env: Env, before: seq<Action>): Run
  {
    var resumed := before + [Resume, CloseHandle(ThreadHandle)];
    if env.closeThread.Err? then Run(Err(FromWindows(env.closeThread.error)), resumed)
    else if env.closeProcess.Err? then Run(Err(FromWindows(env.closeProcess.error)), resumed + [CloseHandle(ProcessHandle)])
    else Run(Ok(()), resumed + [CloseHandle(ProcessHandle)])
  }

  /** The result and the calls of `run_bxt` on Windows, in closed form. */
  function Launch(c: Config, env: Env): (run: Run)
    ensures run.trace == [] <==> c.hlexe == [] || Modules(c, env).Err?
    ensures run.trace != [] ==> run.trace[0] == SpawnAction(c)
  {
    if c.hlexe == [] then Run(Err(NoHLExe), [])
    else match Modules(c, env)
      case Err(e) => Run(Err(e), [])
      case Ok(dlls) => Spawned(c, env, dlls)
  }

  /** From the spawn on, once the module list `dlls` is known. */
  function Spawned(c: Config, env: Env, dlls: seq<string>): (run: Run)
    ensures run.trace != [] && run.trace[0] == SpawnAction(c)
  {
    match env.spawn
    case Err(e) => Run(Err(FromWindows(e)), [SpawnAction(c)])
    case Ok(pi) =>
      if env.createEvent.Err? then Run(Err(FromWindows(env.createEvent.error)), Prologue(c))
      else Injected(env, Prologue(c), dlls, pi.processId)
  }

  /** From the first injection on, after the calls `before`. */
  function Injected(env: Env, before: seq<Action>, dlls: seq<string>, pid: nat): (run: Run)
    ensures |before| < |run.trace| && run.trace[..|before|] == before
  {
    var j := FirstFailure(env, |dlls|, 0);
    var injected := before + Cycles(pid, dlls[..j]);
    if j < |dlls| then
      Run(Err(CycleError(env.outcome(j))), injected + FailedCycle(pid, dlls[j], env.outcome(j)))
    else Finish(env, injected)
  }

  /** When the cycle at `i` is the first to fail, the run stops there with that cycle's error. */
  lemma InjectedFailsAt(env: Env, before: seq<Action>, dlls: seq<string>, pid: nat, i: nat)
    requires i < |dlls| && !CycleOk(env.outcome(i))
    requires forall m :: 0 <= m < i ==> CycleOk(env.outcome(m))
    ensures Injected(env, before, dlls, pid)
      == Run(Err(CycleError(env.outcome(i))), before + Cycles(pid, dlls[..i]) + FailedCycle(pid, dlls[i], env.outcome(i)))
  {
    assert FirstFailure(env, |dlls|, 0) == i;
  }

  /** When no cycle fails, the run goes on to resume the thread after every cycle. */
  lemma InjectedSucceeds(env: Env, before: seq<Action>, dlls: seq<string>, pid: nat)
    requires forall m :: 0 <= m < |dlls| ==> CycleOk(env.outcome(m))
    ensures Injected(env, before, dlls, pid) == Finish(env, before + Cycles(pid, dlls))
  {
    assert FirstFailure(env, |dlls|, 0) == |dlls|;
    assert dlls[..|dlls|] == dlls;
  }

  lemma CyclesSnoc(pid: nat, dlls: seq<string>, i: nat)
    requires i < |dlls|
    ensures Cycles(pid, dlls[..i + 1]) == Cycles(pid, dlls[..i]) + Cycle(pid, dlls[i])
  {
    assert dlls[..i + 1][..i] == dlls[..i];
  }

  /** `run_bxt` on Windows: returns the result and the calls made, in order. */
  method RunBxt(config: Config, env: Env) returns (r: Result<(), LauncherError>, trace: seq<Action>)
    ensures Run(r, trace) == Launch(config, env)
  {
    if config.hlexe == [] {
      return Err(NoHLExe), [];
    }
    var modules := ModulesToInject(config, env);
    if modules.Err? {
      return Err(modules.error), [];
    }
    r, trace := SpawnAndInject(config, env, modules.value);
  }

  /**
   * The building of `bxt_dlls_to_inject` in `run_bxt`: bxt-rs first, then
   * BunnymodXT, each only when enabled, and each checked to be a regular file.
   */
  method ModulesToInject(config: Config, env: Env) returns (r: Result<seq<string>, LauncherError>)
    ensures r == Modules(config, env)
  {
    var dllsToInject: seq<string> := [];
    // bxt-rs goes first
    if config.enableBxtRs {
      if IsRegularFile(env, config.bxtRs) {
        dllsToInject := dllsToInject + [config.bxtRs];
      } else {
        return Err(FileDoesNotExist(config.bxtRs));
      }
    }
    if config.enableBxt {
      if IsRegularFile(env, config.bxt) {
        dllsToInject := dllsToInject + [config.bxt];
      } else {
        return Err(FileDoesNotExist(config.bxt));
      }
    }
    assert Modules(config, env).value == dllsToInject;
    return Ok(dllsToInject);
  }

  /** The `CreateProcessW` call of `run_bxt`: the wide executable path and argument string, suspended and detached. */
  method CreateProcessCall(config: Config) returns (spawn: Action)
    ensures spawn == SpawnAction(config)
    ensures spawn.Spawn? && spawn.flags == 0x0000_000C
    ensures '\0' !in config.hlexe ==> ReadWide(spawn.application) == Some(config.hlexe)
    ensures '\0' !in config.gamemod && '\0' !in config.extras ==>
      ReadWide(spawn.arguments)
        == Some("-game " + (if config.gamemod == [] then DEFAULT_GAMEMOD else config.gamemod) + " " + config.extras)
  {
    var processPath := ToWide(config.hlexe);
    var gamemod := if config.gamemod == [] then DEFAULT_GAMEMOD else config.gamemod;
    var arguments := ToWide(CommandLine(gamemod, config.extras));
    spawn := Spawn(processPath, arguments, CREATE_SUSPENDED | DETACHED_PROCESS);
    if '\0' !in config.hlexe && '\0' !in config.gamemod && '\0' !in config.extras {
      SpawnArgumentsReadBack(config);
    } else if '\0' !in config.hlexe {
      ToWideReadsBack(config.hlexe);
    } else if '\0' !in config.gamemod && '\0' !in config.extras {
      SpawnArgumentsReadBack(config.(hlexe := []));
    }
  }

  /** The `CreateEventW` call of `run_bxt`: an auto-reset event, initially unset, named by its wide buffer. */
  method CreateEventCall() returns (createEvent: Action)
    ensures createEvent == CreateEventAction()
    ensures createEvent.CreateEvent? && !createEvent.manualReset && !createEvent.initialState
  {
    var eventName := ToWide(EVENT_NAME);
    EventNameIsWide();
    createEvent := CreateEvent(false, false, eventName);
  }

  /** Start the game suspended and create the event, then inject `dllsToInject` and resume. */
  method SpawnAndInject(config: Config, env: Env, dllsToInject: seq<string>)
    returns (r: Result<(), LauncherError>, trace: seq<Action>)
    ensures Run(r, trace) == Spawned(config, env, dllsToInject)
  {
    var spawn := CreateProcessCall(config);
    trace := [spawn];
    if env.spawn.Err? {
      return Err(FromWindows(env.spawn.error)), trace;
    }
    var pi := env.spawn.value;

    var createEvent := CreateEventCall();
    trace := trace + [createEvent];
    assert trace == [spawn, createEvent];
    if env.createEvent.Err? {
      return Err(FromWindows(env.createEvent.error)), trace;
    }
    r, trace := InjectAndResume(env, trace, dllsToInject, pi.processId);
  }

  /**
   * One pass of the injection loop of `run_bxt`, for the module `dll` at position
   * `i` of the list: open the process, inject, wait for the event, reset it.
   * `failure` is the error of the first step that fails, if one does.
   */
  method InjectModule(env: Env, pid: nat, dll: string, i: nat)
    returns (failure: Option<LauncherError>, steps: seq<Action>)
    ensures failure.None? <==> CycleOk(env.outcome(i))
    ensures failure.None? ==> steps == Cycle(pid, dll)
    ensures failure.Some? ==> steps == FailedCycle(pid, dll, env.outcome(i)) && failure.value == CycleError(env.outcome(i))
  {
    var outcome := env.outcome(i);
    steps := [OpenProcess(pid)];
    if outcome.open.Err? {
      return Some(FromIo(outcome.open.error)), steps;
    }
    steps := steps + [Inject(dll)];
    if outcome.inject.Err? {
      return Some(FromInject(outcome.inject.error)), steps;
    }
    steps := steps + [Wait(INFINITE)];
    if outcome.wait == WAIT_FAILED {
      return Some(InjectionFailed(WAIT_FAILURE_REASON)), steps;
    }
    steps := steps + [Reset];
    if outcome.reset.Err? {
      return Some(FromWindows(outcome.reset.error)), steps;
    }
    return None, steps;
  }

  /**
   * The injection loop of `run_bxt`, once the game is spawned suspended and the
   * event exists: inject each module in list order, stopping at the first
   * failure; then resume the main thread. `before` holds the calls made so far.
   */
  method InjectAndResume(env: Env, before: seq<Action>, dllsToInject: seq<string>, pid: nat)
    returns (r: Result<(), LauncherError>, trace: seq<Action>)
    ensures Run(r, trace) == Injected(env, before, dllsToInject, pid)
  {
    trace := before;
    var i := 0;
    while i < |dllsToInject|
      invariant 0 <= i <= |dllsToInject|
      invariant forall m :: 0 <= m < i ==> CycleOk(env.outcome(m))
      invariant trace == before + Cycles(pid, dllsToInject[..i])
    {
      var failure, steps := InjectModule(env, pid, dllsToInject[i], i);
      trace := trace + steps;
      if failure.Some? {
        InjectedFailsAt(env, before, dllsToInject, pid, i);
        return Err(failure.value), trace;
      }
      CyclesSnoc(pid, dllsToInject, i);
      i := i + 1;
    }
    InjectedSucceeds(env, before, dllsToInject, pid);
    assert dllsToInject[..i] == dllsToInject;
    r, trace := ResumeAndClose(env, trace);
  }

  /** Resume the main thread, ignoring what `ResumeThread` returns, then close the thread and process handles. */
  method ResumeAndClose(env: Env, before: seq<Action>) returns (r: Result<(), LauncherError>, trace: seq<Action>)
    ensures Run(r, trace) == Finish(env, before)
  {
    // ResumeThread's result, the previous suspend count, is not looked at: nothing reads env.resumeCount
    trace := before + [Resume, CloseHandle(ThreadHandle)];
    if env.closeThread.Err? {
      return Err(FromWindows(env.closeThread.error)), trace;
    }
    trace := trace + [CloseHandle(ProcessHandle)];
    if env.closeProcess.Err? {
      return Err(FromWindows(env.closeProcess.error)), trace;
    }
    return Ok(()), trace;
  }

  /** `run_bxt` on every other platform: only the executable path is checked, and no call is made. */
  function RunBxtStub(c: Config): (r: Result<(), LauncherError>)
    ensures r.Ok? <==> c.hlexe != []
    ensures r.Err? ==> r.error == NoHLExe
  {
    if c.hlexe == [] then Err(NoHLExe) else Ok(())
  }
}
