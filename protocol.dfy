/**
 * The launch protocol of `run_bxt`, proved about `Launch`, the closed form that
 * `Launcher.RunBxt` computes: nothing is called before the inputs are checked,
 * the modules are injected in list order and each one is waited for, the main
 * thread is resumed at most once and only after every module, the event handle
 * is never closed, and every error names the call that failed.
 *
 * The proofs go phase by phase: first the injection phase (`Injected` with no
 * calls before it), then the whole launch, which is the prologue followed by it.
 */
module Protocol {
  import opened Wrappers
  import opened Errors
  import opened Configuration
  import opened Launcher

  /** The modules handed to the injector by a trace, in the order of the calls. */
  function Injections(trace: seq<Action>): seq<string>
  {
    if trace == [] then []
    else Injections(trace[..|trace| - 1]) + (if trace[|trace| - 1].Inject? then [trace[|trace| - 1].dll] else [])
  }

  lemma {:induction false} InjectionsAppend(a: seq<Action>, b: seq<Action>)
    ensures Injections(a + b) == Injections(a) + Injections(b)
    decreases |b|
  {
    if b == [] {
      assert a + b == a;
    } else {
      var init := b[..|b| - 1];
      assert (a + b)[..|a + b| - 1] == a + init;
      InjectionsAppend(a, init);
    }
  }

  lemma {:induction false} NoInjections(t: seq<Action>)
    requires forall a :: a in t ==> !a.Inject?
    ensures Injections(t) == []
    decreases |t|
  {
    if t != [] {
      assert t[|t| - 1] in t;
      var init := t[..|t| - 1];
      assert forall a :: a in init ==> a in t;
      NoInjections(init);
    }
  }

  lemma InjectionsOfOne(x: Action)
    ensures Injections([x]) == if x.Inject? then [x.dll] else []
  {
    assert [x][..0] == [];
  }

  /** A call made for one module in the injection loop, for the process `pid`. */
  predicate CycleAction(pid: nat, a: Action)
  {
    a == OpenProcess(pid) || a.Inject? || a == Wait(INFINITE) || a == Reset
  }

  /** A call of the injection phase: a cycle's call, the resume, or closing the thread or process handle. */
  predicate PhaseAction(pid: nat, a: Action)
  {
    CycleAction(pid, a) || a == Resume || a == CloseHandle(ThreadHandle) || a == CloseHandle(ProcessHandle)
  }

  /** The calls of a module's cycle, complete or stopped at its first failure. */
  lemma CycleShape(pid: nat, dll: string, o: ModuleOutcome)
    ensures Injections(Cycle(pid, dll)) == [dll]
    ensures !CycleOk(o) ==> Injections(FailedCycle(pid, dll, o)) == (if o.open.Err? then [] else [dll])
    ensures !CycleOk(o) ==> forall a :: a in FailedCycle(pid, dll, o) ==> CycleAction(pid, a)
  {
    var open, inject, wait, reset := [OpenProcess(pid)], [Inject(dll)], [Wait(INFINITE)], [Reset];
    InjectionsOfOne(OpenProcess(pid));
    InjectionsOfOne(Inject(dll));
    InjectionsOfOne(Wait(INFINITE));
    InjectionsOfOne(Reset);
    InjectionsAppend(open, inject);
    InjectionsAppend(open + inject, wait);
    InjectionsAppend(open + inject + wait, reset);
    assert Cycle(pid, dll) == open + inject + wait + reset;
    if !CycleOk(o) {
      var failed := FailedCycle(pid, dll, o);
      if o.open.Err? {
        assert failed == open;
      } else if o.inject.Err? {
        assert failed == open + inject;
      } else if o.wait == WAIT_FAILED {
        assert failed == open + inject + wait;
      }
    }
  }

  /** The cycles of a list of modules take four calls each, and inject exactly that list. */
  lemma {:induction false} CyclesShape(pid: nat, dlls: seq<string>)
    ensures |Cycles(pid, dlls)| == 4 * |dlls|
    ensures forall a :: a in Cycles(pid, dlls) ==> CycleAction(pid, a)
    ensures Injections(Cycles(pid, dlls)) == dlls
    decreases |dlls|
  {
    if dlls != [] {
      var init := dlls[..|dlls| - 1];
      var last := dlls[|dlls| - 1];
      CyclesShape(pid, init);
      CycleShape(pid, last, ModuleOutcome(Ok(()), Ok(()), 0, Ok(())));
      InjectionsAppend(Cycles(pid, init), Cycle(pid, last));
      assert init + [last] == dlls;
    }
  }

  /** The injection phase after any calls `before` is that phase on its own, after them. */
  lemma InjectedAfter(env: Env, before: seq<Action>, dlls: seq<string>, pid: nat)
    ensures var alone := Injected(env, [], dlls, pid);
      Injected(env, before, dlls, pid) == Run(alone.result, before + alone.trace)
  {
    var j := FirstFailure(env, |dlls|, 0);
    var k := Cycles(pid, dlls[..j]);
    assert [] + k == k;
    if j < |dlls| {
      var f := FailedCycle(pid, dlls[j], env.outcome(j));
      assert before + k + f == before + (k + f);
    } else {
      var resumed := [Resume, CloseHandle(ThreadHandle)];
      assert before + k + resumed == before + (k + resumed);
      assert before + k + resumed + [CloseHandle(ProcessHandle)] == before + (k + resumed + [CloseHandle(ProcessHandle)]);
    }
  }

  /** Whether every module's cycle succeeds. */
  predicate AllCyclesOk(env: Env, dlls: seq<string>)
  {
    forall m :: 0 <= m < |dlls| ==> CycleOk(env.outcome(m))
  }

  /** What the injection phase calls after the complete cycles of the first `j` modules. */
  function PhaseTail(env: Env, dlls: seq<string>, pid: nat, j: nat): seq<Action>
    requires j <= |dlls| && (j < |dlls| ==> !CycleOk(env.outcome(j)))
  {
    if j < |dlls| then FailedCycle(pid, dlls[j], env.outcome(j)) else Finish(env, []).trace
  }

  /** The calls that end the phase: the failed cycle, or the resume and the handle closings. */
  lemma TailCalls(env: Env, dlls: seq<string>, pid: nat, j: nat)
    requires j <= |dlls| && (j < |dlls| ==> !CycleOk(env.outcome(j)))
    ensures var tail := PhaseTail(env, dlls, pid, j);
      && (forall a :: a in tail ==> PhaseAction(pid, a))
      && (Resume in tail <==> j == |dlls|)
      && multiset(tail)[Resume] <= 1
      && (forall h :: CloseHandle(h) in tail ==> Resume in tail)
      && (env.closeThread.Err? ==> CloseHandle(ProcessHandle) !in tail)
  {
    if j < |dlls| {
      FailedCycleCalls(pid, dlls[j], env.outcome(j));
    } else {
      FinishCalls(env);
    }
  }

  lemma FailedCycleCalls(pid: nat, dll: string, o: ModuleOutcome)
    requires !CycleOk(o)
    ensures var f := FailedCycle(pid, dll, o);
      && (forall a :: a in f ==> CycleAction(pid, a))
      && Resume !in f && multiset(f)[Resume] == 0
      && (forall h :: CloseHandle(h) !in f)
  {
    CycleShape(pid, dll, o);
  }

  lemma FinishCalls(env: Env)
    ensures var t := Finish(env, []).trace;
      && (forall a :: a in t ==> a == Resume || a == CloseHandle(ThreadHandle) || a == CloseHandle(ProcessHandle))
      && Resume in t && multiset(t)[Resume] == 1
      && (env.closeThread.Err? ==> CloseHandle(ProcessHandle) !in t)
  {
  }

  lemma FinishAfter(env: Env, before: seq<Action>)
    ensures Finish(env, before) == Run(Finish(env, []).result, before + Finish(env, []).trace)
  {
    var resumed := [Resume, CloseHandle(ThreadHandle)];
    assert [] + resumed == resumed;
    assert before + resumed + [CloseHandle(ProcessHandle)] == before + (resumed + [CloseHandle(ProcessHandle)]);
  }

  /** The injection phase: the complete cycles of the modules before the first failing one, then its tail. */
  lemma PhaseTrace(env: Env, dlls: seq<string>, pid: nat) returns (j: nat)
    ensures j <= |dlls| && (j < |dlls| ==> !CycleOk(env.outcome(j)))
    ensures forall m :: 0 <= m < j ==> CycleOk(env.outcome(m))
    ensures AllCyclesOk(env, dlls) <==> j == |dlls|
    ensures Injected(env, [], dlls, pid).trace == Cycles(pid, dlls[..j]) + PhaseTail(env, dlls, pid, j)
  {
    j := FirstFailure(env, |dlls|, 0);
    var k := Cycles(pid, dlls[..j]);
    assert [] + k == k;
    if j == |dlls| {
      FinishAfter(env, k);
    }
  }

  /**
   * The calls of the injection phase: only cycle calls, the resume and the two
   * handle closings; the resume happens exactly when every cycle succeeds, at
   * most once, and before any handle is closed; the event handle is never closed,
   * and the process handle is not closed once closing the thread handle failed.
   */
  lemma PhaseCalls(env: Env, dlls: seq<string>, pid: nat)
    ensures var t := Injected(env, [], dlls, pid).trace;
      && (forall a :: a in t ==> PhaseAction(pid, a))
      && (Resume in t <==> AllCyclesOk(env, dlls))
      && multiset(t)[Resume] <= 1
      && (forall h :: CloseHandle(h) in t ==> Resume in t)
      && (env.closeThread.Err? ==> CloseHandle(ProcessHandle) !in t)
  {
    var j := PhaseTrace(env, dlls, pid);
    CyclesShape(pid, dlls[..j]);
    TailCalls(env, dlls, pid, j);
    CyclesThenTail(pid, Cycles(pid, dlls[..j]), PhaseTail(env, dlls, pid, j));
  }

  /** Cycle calls before a tail add no resume and close no handle. */
  lemma CyclesThenTail(pid: nat, k: seq<Action>, tail: seq<Action>)
    requires forall a :: a in k ==> CycleAction(pid, a)
    ensures forall a :: a in k + tail ==> CycleAction(pid, a) || a in tail
    ensures Resume in k + tail <==> Resume in tail
    ensures multiset(k + tail)[Resume] == multiset(tail)[Resume]
    ensures forall h :: CloseHandle(h) in k + tail <==> CloseHandle(h) in tail
  {
    assert Resume !in k;
    assert multiset(k + tail) == multiset(k) + multiset(tail);
  }

  /** The phase injects a prefix of the module list, in order, and the whole list when every cycle succeeds. */
  lemma PhaseInjections(env: Env, dlls: seq<string>, pid: nat)
    ensures var inj := Injections(Injected(env, [], dlls, pid).trace);
      && |inj| <= |dlls| && inj == dlls[..|inj|]
      && (AllCyclesOk(env, dlls) ==> inj == dlls)
  {
    var j := PhaseTrace(env, dlls, pid);
    var k := Cycles(pid, dlls[..j]);
    var tail := PhaseTail(env, dlls, pid, j);
    CyclesShape(pid, dlls[..j]);
    InjectionsAppend(k, tail);
    TailInjections(env, dlls, pid, j);
  }

  lemma TailInjections(env: Env, dlls: seq<string>, pid: nat, j: nat)
    requires j <= |dlls| && (j < |dlls| ==> !CycleOk(env.outcome(j)))
    ensures var inj := dlls[..j] + Injections(PhaseTail(env, dlls, pid, j));
      |inj| <= |dlls| && inj == dlls[..|inj|] && (j == |dlls| ==> inj == dlls)
  {
    if j < |dlls| {
      FailedTailInjections(pid, dlls, j, env.outcome(j));
    } else {
      FinishInjectsNothing(env);
      assert dlls[..j] == dlls;
    }
  }

  lemma FailedTailInjections(pid: nat, dlls: seq<string>, j: nat, o: ModuleOutcome)
    requires j < |dlls| && !CycleOk(o)
    ensures var inj := dlls[..j] + Injections(FailedCycle(pid, dlls[j], o));
      |inj| <= |dlls| && inj == dlls[..|inj|]
  {
    CycleShape(pid, dlls[j], o);
    assert dlls[..j] + [dlls[j]] == dlls[..j + 1];
  }

  lemma FinishInjectsNothing(env: Env)
    ensures Injections(Finish(env, []).trace) == []
  {
    var t := Finish(env, []).trace;
    assert forall a :: a in t ==> !a.Inject?;
    NoInjections(t);
  }

  /** The result of the injection phase: the first failing cycle's error, or that of the handle closings. */
  lemma PhaseResult(env: Env, dlls: seq<string>, pid: nat) returns (j: nat)
    ensures j <= |dlls| && (j < |dlls| ==> !CycleOk(env.outcome(j)))
    ensures j == FirstFailure(env, |dlls|, 0)
    ensures j < |dlls| ==> Injected(env, [], dlls, pid).result == Err(CycleError(env.outcome(j)))
    ensures j == |dlls| ==> Injected(env, [], dlls, pid).result == Finish(env, []).result
  {
    j := FirstFailure(env, |dlls|, 0);
    if j == |dlls| {
      FinishAfter(env, Cycles(pid, dlls[..j]));
    }
  }

  /**
   * The phase succeeds exactly when every cycle and both handle closings succeed,
   * and then its calls are the cycles in list order, the resume and the two closings.
   */
  lemma PhaseSucceeds(env: Env, dlls: seq<string>, pid: nat)
    ensures var run := Injected(env, [], dlls, pid);
      && (run.result.Ok? <==> AllCyclesOk(env, dlls) && env.closeThread.Ok? && env.closeProcess.Ok?)
      && (run.result.Ok? ==> run.trace == Cycles(pid, dlls) + [Resume, CloseHandle(ThreadHandle), CloseHandle(ProcessHandle)])
  {
    var j := PhaseResult(env, dlls, pid);
    var k := PhaseTrace(env, dlls, pid);
    assert dlls[..|dlls|] == dlls;
  }

  /**
   * An error of the phase names the call that failed, which is the last call made:
   * `IOError` the opening of the process, `InjectError` the injection,
   * `InjectionFailed` the wait, `WindowsAPI` the event reset or a handle closing.
   */
  lemma PhaseErrors(env: Env, dlls: seq<string>, pid: nat)
    ensures var run := Injected(env, [], dlls, pid);
      run.result.Err? ==> run.trace != [] && NamesLastCall(run.result.error, run.trace[|run.trace| - 1], pid)
  {
    var j := PhaseResult(env, dlls, pid);
    var k := PhaseTrace(env, dlls, pid);
    TailLastCall(env, dlls, pid, j);
    var tail := PhaseTail(env, dlls, pid, j);
    assert (Cycles(pid, dlls[..j]) + tail)[|Cycles(pid, dlls[..j]) + tail| - 1] == tail[|tail| - 1];
  }

  /** The error `e` is the one the call `last` reports when it fails. */
  predicate NamesLastCall(e: LauncherError, last: Action, pid: nat)
  {
    && (e.IOError? || e.InjectError? || e.InjectionFailed? || e.WindowsAPI?)
    && (e.IOError? ==> last == OpenProcess(pid))
    && (e.InjectError? ==> last.Inject?)
    && (e.InjectionFailed? ==> last == Wait(INFINITE) && e.reason == WAIT_FAILURE_REASON)
    && (e.WindowsAPI? ==> last.Spawn? || last.CreateEvent? || last == Reset || last.CloseHandle?)
  }

  lemma TailLastCall(env: Env, dlls: seq<string>, pid: nat, j: nat)
    requires j <= |dlls| && (j < |dlls| ==> !CycleOk(env.outcome(j)))
    ensures PhaseTail(env, dlls, pid, j) != []
    ensures var tail := PhaseTail(env, dlls, pid, j);
      && (j < |dlls| ==> NamesLastCall(CycleError(env.outcome(j)), tail[|tail| - 1], pid))
      && (j == |dlls| && Finish(env, []).result.Err? ==> NamesLastCall(Finish(env, []).result.error, tail[|tail| - 1], pid))
  {
  }

  /** The phase fails with `InjectionFailed` exactly when the first failing cycle fails at its wait. */
  lemma PhaseWaitFailure(env: Env, dlls: seq<string>, pid: nat)
    ensures var j := FirstFailure(env, |dlls|, 0); var r := Injected(env, [], dlls, pid).result;
      (r.Err? && r.error.InjectionFailed?)
      <==> (j < |dlls| && env.outcome(j).open.Ok? && env.outcome(j).inject.Ok? && env.outcome(j).wait == WAIT_FAILED)
  {
    var j := PhaseResult(env, dlls, pid);
  }

  /** The launch gets past the checks, the spawn and the event creation. */
  predicate Reached(c: Config, env: Env)
  {
    c.hlexe != [] && Modules(c, env).Ok? && env.spawn.Ok? && env.createEvent.Ok?
  }

  /** The injection phase of a launch that got that far, on its own. */
  function Phase(c: Config, env: Env): Run
    requires Reached(c, env)
  {
    Injected(env, [], Modules(c, env).value, env.spawn.value.processId)
  }

  /**
   * The calls of a launch: none, the spawn, or the prologue (the spawn and the
   * event creation), the last two with an error; or the prologue followed by the
   * injection phase.
   */
  lemma LaunchPhases(c: Config, env: Env)
    ensures var run := Launch(c, env);
      && (!Reached(c, env) ==> run.result.Err? && (run.trace == [] || run.trace == [SpawnAction(c)] || run.trace == Prologue(c)))
      && (c.hlexe == [] ==> run == Run(Err(NoHLExe), []))
      && (c.hlexe != [] && Modules(c, env).Err? ==> run == Run(Err(Modules(c, env).error), []))
      && (c.hlexe != [] && Modules(c, env).Ok? && env.spawn.Err? ==> run == Run(Err(FromWindows(env.spawn.error)), [SpawnAction(c)]))
      && (c.hlexe != [] && Modules(c, env).Ok? && env.spawn.Ok? && env.createEvent.Err? ==>
            run == Run(Err(FromWindows(env.createEvent.error)), Prologue(c)))
      && (Reached(c, env) ==> run == Run(Phase(c, env).result, Prologue(c) + Phase(c, env).trace))
  {
    if Reached(c, env) {
      InjectedAfter(env, Prologue(c), Modules(c, env).value, env.spawn.value.processId);
    }
  }

  /**
   * No call is made unless an executable is given and every enabled module is a
   * regular file; then the first call, and the only `CreateProcessW`, starts the
   * game suspended and detached.
   */
  lemma ChecksBeforeSpawn(c: Config, env: Env)
    ensures Launch(c, env).trace == [] <==> c.hlexe == [] || Modules(c, env).Err?
    ensures c.hlexe == [] ==> Launch(c, env).result == Err(NoHLExe)
    ensures c.hlexe != [] && Modules(c, env).Err? ==> Launch(c, env).result == Err(Modules(c, env).error)
    ensures var t := Launch(c, env).trace;
      t != [] ==> t[0] == SpawnAction(c) && t[0].flags == 0x0000_000C && forall i :: 0 < i < |t| ==> !t[i].Spawn?
  {
    LaunchPhases(c, env);
    if Reached(c, env) {
      var p := Phase(c, env).trace;
      PhaseMakesNoSpawn(env, Modules(c, env).value, env.spawn.value.processId);
      SpawnOnlyFirst(c, p);
    } else {
      SpawnOnlyFirst(c, []);
    }
  }

  lemma PhaseMakesNoSpawn(env: Env, dlls: seq<string>, pid: nat)
    ensures forall a :: a in Injected(env, [], dlls, pid).trace ==> !a.Spawn?
  {
    PhaseCalls(env, dlls, pid);
    PhaseActionsExclude(pid, Injected(env, [], dlls, pid).trace);
  }

  /** The injection phase neither spawns, nor creates an event, nor closes the event handle. */
  lemma PhaseActionsExclude(pid: nat, t: seq<Action>)
    requires forall a :: a in t ==> PhaseAction(pid, a)
    ensures forall a :: a in t ==> !a.Spawn? && !a.CreateEvent?
    ensures CloseHandle(EventHandle) !in t
  {
  }

  lemma SpawnOnlyFirst(c: Config, p: seq<Action>)
    requires forall a :: a in p ==> !a.Spawn?
    ensures var t := Prologue(c) + p;
      t[0] == SpawnAction(c) && forall i :: 0 < i < |t| ==> !t[i].Spawn?
    ensures Prologue(c) + [] == Prologue(c)
  {
    OnlyFirstSpawns(SpawnAction(c), CreateEventAction(), p);
  }

  lemma OnlyFirstSpawns(x: Action, y: Action, p: seq<Action>)
    requires !y.Spawn? && forall a :: a in p ==> !a.Spawn?
    ensures var t := [x, y] + p;
      t[0] == x && forall i :: 0 < i < |t| ==> !t[i].Spawn?
    ensures [x, y] + [] == [x, y]
  {
    var t := [x, y] + p;
    forall i | 2 <= i < |t|
      ensures !t[i].Spawn?
    {
      assert t[i] == p[i - 2];
    }
  }

  /** The prologue adds no resume, closes no handle and injects nothing. */
  lemma PrologueThen(c: Config, p: seq<Action>)
    ensures Resume in Prologue(c) + p <==> Resume in p
    ensures multiset(Prologue(c) + p)[Resume] == multiset(p)[Resume]
    ensures forall h :: CloseHandle(h) in Prologue(c) + p <==> CloseHandle(h) in p
    ensures Injections(Prologue(c) + p) == Injections(p)
  {
    PrologueCalls(c);
    QuietThen(Prologue(c), p);
  }

  /** Calls that resume nothing, close nothing and inject nothing, put before `p`, add none of these. */
  lemma QuietThen(early: seq<Action>, p: seq<Action>)
    requires Resume !in early && multiset(early)[Resume] == 0
    requires (forall h :: CloseHandle(h) !in early) && Injections(early) == []
    ensures Resume in early + p <==> Resume in p
    ensures multiset(early + p)[Resume] == multiset(p)[Resume]
    ensures forall h :: CloseHandle(h) in early + p <==> CloseHandle(h) in p
    ensures Injections(early + p) == Injections(p)
  {
    assert multiset(early + p) == multiset(early) + multiset(p);
    InjectionsAppend(early, p);
  }

  lemma PrologueCalls(c: Config)
    ensures Resume !in Prologue(c) && multiset(Prologue(c))[Resume] == 0
    ensures forall h :: CloseHandle(h) !in Prologue(c)
    ensures Injections(Prologue(c)) == []
  {
    PairCalls(SpawnAction(c), CreateEventAction());
  }

  lemma PairCalls(x: Action, y: Action)
    requires x.Spawn? && y.CreateEvent?
    ensures Resume !in [x, y] && multiset([x, y])[Resume] == 0
    ensures forall h :: CloseHandle(h) !in [x, y]
    ensures Injections([x, y]) == []
  {
    NoInjections([x, y]);
  }

  /**
   * The main thread is resumed exactly when every module was injected and
   * signalled, and then only once; by then every listed module was injected.
   */
  lemma ResumeOnlyAfterEveryModule(c: Config, env: Env)
    ensures var t := Launch(c, env).trace;
      && (Resume in t <==> Reached(c, env) && AllCyclesOk(env, Modules(c, env).value))
      && multiset(t)[Resume] <= 1
      && (Resume in t ==> Injections(t) == Modules(c, env).value)
  {
    LaunchPhases(c, env);
    if Reached(c, env) {
      var dlls, pid := Modules(c, env).value, env.spawn.value.processId;
      PhaseResume(env, dlls, pid);
      PrologueThen(c, Phase(c, env).trace);
    }
  }

  /**
   * A launch that resumed the main thread made, in this order, the spawn and the
   * event creation, one complete cycle per listed module in list order, and then
   * the resume and the handle closings.
   */
  lemma ResumedRunRanEveryCycle(c: Config, env: Env)
    requires Resume in Launch(c, env).trace
    ensures Reached(c, env)
    ensures Launch(c, env).trace
      == Prologue(c) + Cycles(env.spawn.value.processId, Modules(c, env).value) + Finish(env, []).trace
  {
    ResumeOnlyAfterEveryModule(c, env);
    LaunchPhases(c, env);
    var dlls, pid := Modules(c, env).value, env.spawn.value.processId;
    var j := PhaseTrace(env, dlls, pid);
    assert j == |dlls| && dlls[..j] == dlls;
    Regroup(Prologue(c), Cycles(pid, dlls), Finish(env, []).trace);
  }

  /** Concatenation regrouped, kept apart so the literal prologue is not unfolded. */
  lemma Regroup(a: seq<Action>, b: seq<Action>, d: seq<Action>)
    ensures a + (b + d) == a + b + d
  {
  }

  lemma PhaseResume(env: Env, dlls: seq<string>, pid: nat)
    ensures var t := Injected(env, [], dlls, pid).trace;
      && (Resume in t <==> AllCyclesOk(env, dlls))
      && multiset(t)[Resume] <= 1
      && (Resume in t ==> Injections(t) == dlls)
  {
    PhaseCalls(env, dlls, pid);
    PhaseInjections(env, dlls, pid);
  }

  /**
   * No handle is closed before the main thread is resumed, so every error before
   * it leaves the thread and process handles open; the event handle is never
   * closed; and the process handle stays open when closing the thread handle fails.
   */
  lemma HandlesClosedOnlyAfterResume(c: Config, env: Env)
    ensures var t := Launch(c, env).trace;
      && CloseHandle(EventHandle) !in t
      && (forall h :: CloseHandle(h) in t ==> Resume in t)
      && (env.closeThread.Err? ==> CloseHandle(ProcessHandle) !in t)
  {
    LaunchPhases(c, env);
    if Reached(c, env) {
      PhaseClosings(env, Modules(c, env).value, env.spawn.value.processId);
      PrologueCalls(c);
      ClosingsAfter(Prologue(c), Phase(c, env).trace, env.closeThread.Err?);
    } else {
      EarlyCalls(c);
    }
  }

  /** Calls that neither resume nor close a handle, put before `p`, keep what `p` says about its closings. */
  lemma ClosingsAfter(early: seq<Action>, p: seq<Action>, threadCloseFailed: bool)
    requires Resume !in early && forall h :: CloseHandle(h) !in early
    requires CloseHandle(EventHandle) !in p && forall h :: CloseHandle(h) in p ==> Resume in p
    requires threadCloseFailed ==> CloseHandle(ProcessHandle) !in p
    ensures CloseHandle(EventHandle) !in early + p && forall h :: CloseHandle(h) in early + p ==> Resume in early + p
    ensures threadCloseFailed ==> CloseHandle(ProcessHandle) !in early + p
  {
  }

  /** The calls of a launch that stops before the injections resume nothing, close nothing and inject nothing. */
  lemma EarlyCalls(c: Config)
    ensures forall t :: t == [] || t == [SpawnAction(c)] || t == Prologue(c) ==>
      Resume !in t && (forall h :: CloseHandle(h) !in t) && Injections(t) == []
  {
    PrologueCalls(c);
    InjectionsOfOne(SpawnAction(c));
  }

  lemma PhaseClosings(env: Env, dlls: seq<string>, pid: nat)
    ensures var t := Injected(env, [], dlls, pid).trace;
      && CloseHandle(EventHandle) !in t
      && (forall h :: CloseHandle(h) in t ==> Resume in t)
      && (env.closeThread.Err? ==> CloseHandle(ProcessHandle) !in t)
  {
    PhaseCalls(env, dlls, pid);
    PhaseActionsExclude(pid, Injected(env, [], dlls, pid).trace);
  }

  /**
   * The modules are injected in list order (bxt-rs before BunnymodXT), the run
   * stopping at the first failure; on success every listed module was injected.
   */
  lemma InjectionOrder(c: Config, env: Env)
    ensures var inj := Injections(Launch(c, env).trace); var d := Modules(c, env);
      && (c.hlexe == [] || d.Err? ==> inj == [])
      && (d.Ok? ==> |inj| <= |d.value| && inj == d.value[..|inj|])
      && (Launch(c, env).result.Ok? ==> inj == d.value)
      && (Launch(c, env).result.Ok? && c.enableBxtRs && c.enableBxt ==> inj == [c.bxtRs, c.bxt])
  {
    if Reached(c, env) {
      PhaseInjectsInOrder(c, env);
    } else {
      EarlyInjectsNothing(c, env);
    }
  }

  lemma PhaseInjectsInOrder(c: Config, env: Env)
    requires Reached(c, env)
    ensures var inj := Injections(Launch(c, env).trace); var dlls := Modules(c, env).value;
      && |inj| <= |dlls| && inj == dlls[..|inj|]
      && (Launch(c, env).result.Ok? ==> inj == dlls)
  {
    var dlls, pid := Modules(c, env).value, env.spawn.value.processId;
    assert Launch(c, env) == Injected(env, Prologue(c), dlls, pid);
    PrologueCalls(c);
    InjectedOrder(env, Prologue(c), dlls, pid);
  }

  lemma EarlyInjectsNothing(c: Config, env: Env)
    requires !Reached(c, env)
    ensures Launch(c, env).result.Err? && Injections(Launch(c, env).trace) == []
  {
    LaunchPhases(c, env);
    EarlyCalls(c);
  }

  /** After calls that inject nothing, the injection phase injects a prefix of the list, all of it on success. */
  lemma InjectedOrder(env: Env, before: seq<Action>, dlls: seq<string>, pid: nat)
    requires Injections(before) == []
    ensures var run := Injected(env, before, dlls, pid); var inj := Injections(run.trace);
      && |inj| <= |dlls| && inj == dlls[..|inj|]
      && (run.result.Ok? ==> inj == dlls)
  {
    InjectedAfter(env, before, dlls, pid);
    PhaseInjections(env, dlls, pid);
    PhaseSucceeds(env, dlls, pid);
    InjectionsAppend(before, Injected(env, [], dlls, pid).trace);
  }

  /**
   * A launch succeeds exactly when every call succeeds, and its calls are then
   * the spawn, the event creation, the cycles in list order, the resume and
   * the closing of the thread and process handles.
   */
  lemma SucceedsExactlyWhenEveryCallDoes(c: Config, env: Env)
    ensures Launch(c, env).result.Ok? <==>
      Reached(c, env) && AllCyclesOk(env, Modules(c, env).value) && env.closeThread.Ok? && env.closeProcess.Ok?
    ensures Launch(c, env).result.Ok? ==>
      Launch(c, env).trace == Prologue(c) + Cycles(env.spawn.value.processId, Modules(c, env).value)
        + [Resume, CloseHandle(ThreadHandle), CloseHandle(ProcessHandle)]
  {
    LaunchPhases(c, env);
    if Reached(c, env) {
      var dlls, pid := Modules(c, env).value, env.spawn.value.processId;
      PhaseSucceeds(env, dlls, pid);
      OkAfterPrologue(Launch(c, env), Phase(c, env), Prologue(c), Cycles(pid, dlls));
    }
  }

  /** A run that is the prologue followed by a phase succeeds with the phase, and its calls regroup. */
  lemma OkAfterPrologue(run: Run, phase: Run, prologue: seq<Action>, k: seq<Action>)
    requires run == Run(phase.result, prologue + phase.trace)
    requires phase.result.Ok? ==> phase.trace == k + [Resume, CloseHandle(ThreadHandle), CloseHandle(ProcessHandle)]
    ensures run.result.Ok? <==> phase.result.Ok?
    ensures run.result.Ok? ==>
      run.trace == prologue + k + [Resume, CloseHandle(ThreadHandle), CloseHandle(ProcessHandle)]
  {
    if phase.result.Ok? {
      Regroup(prologue, k, [Resume, CloseHandle(ThreadHandle), CloseHandle(ProcessHandle)]);
    }
  }

  /** The process the launcher works on, once the spawn succeeded. */
  function SpawnedPid(env: Env): nat
  {
    if env.spawn.Ok? then env.spawn.value.processId else 0
  }

  /**
   * Every error names the call that failed, which is the last call made; only
   * the two checks made before any call (`NoHLExe` and `FileDoesNotExist`) fail
   * with no call made, and the configuration errors never arise here.
   */
  lemma ErrorNamesFailedCall(c: Config, env: Env)
    ensures var run := Launch(c, env);
      run.result.Err? ==>
        && (run.trace == [] <==> run.result.error.NoHLExe? || run.result.error.FileDoesNotExist?)
        && (run.trace != [] ==> NamesLastCall(run.result.error, run.trace[|run.trace| - 1], SpawnedPid(env)))
  {
    if Reached(c, env) {
      PhaseRunNamesCalls(c, env);
    } else {
      EarlyRunNamesCalls(c, env);
    }
  }

  /** Every error of `run` names its last call, and only the two checks fail with no call made. */
  predicate ErrorsNameCalls(run: Run, pid: nat)
  {
    run.result.Err? ==>
      && (run.trace == [] <==> run.result.error.NoHLExe? || run.result.error.FileDoesNotExist?)
      && (run.trace != [] ==> NamesLastCall(run.result.error, run.trace[|run.trace| - 1], pid))
  }

  lemma PhaseRunNamesCalls(c: Config, env: Env)
    requires Reached(c, env)
    ensures ErrorsNameCalls(Launch(c, env), SpawnedPid(env))
  {
    InjectedNamesCalls(env, Prologue(c), Modules(c, env).value, env.spawn.value.processId);
  }

  /** After any calls, the injection phase's errors name its last call. */
  lemma InjectedNamesCalls(env: Env, before: seq<Action>, dlls: seq<string>, pid: nat)
    ensures ErrorsNameCalls(Injected(env, before, dlls, pid), pid)
  {
    InjectedAfter(env, before, dlls, pid);
    PhaseErrors(env, dlls, pid);
    ErrorAfterPrologue(Injected(env, before, dlls, pid), Injected(env, [], dlls, pid), before, pid);
  }

  lemma EarlyRunNamesCalls(c: Config, env: Env)
    requires !Reached(c, env)
    ensures ErrorsNameCalls(Launch(c, env), SpawnedPid(env))
  {
    if c.hlexe == [] || Modules(c, env).Err? {
    } else if env.spawn.Err? {
      WindowsErrorNamesCall(Launch(c, env), env.spawn.error, [SpawnAction(c)], SpawnAction(c), SpawnedPid(env));
    } else {
      WindowsErrorNamesCall(Launch(c, env), env.createEvent.error, Prologue(c), CreateEventAction(), SpawnedPid(env));
    }
  }

  /** A run stopped by a failed `CreateProcessW` or `CreateEventW` names that call. */
  lemma WindowsErrorNamesCall(run: Run, e: WindowsError, t: seq<Action>, last: Action, pid: nat)
    requires run == Run(Err(FromWindows(e)), t)
    requires t != [] && t[|t| - 1] == last && (last.Spawn? || last.CreateEvent?)
    ensures run.result.Err? && run.trace != [] && !run.result.error.NoHLExe? && !run.result.error.FileDoesNotExist?
    ensures NamesLastCall(run.result.error, run.trace[|run.trace| - 1], pid)
  {
  }

  /** A run that is some calls followed by a phase fails with the phase's error, made by its last call. */
  lemma ErrorAfterPrologue(run: Run, phase: Run, prologue: seq<Action>, pid: nat)
    requires run == Run(phase.result, prologue + phase.trace)
    requires phase.result.Err? ==>
      phase.trace != [] && NamesLastCall(phase.result.error, phase.trace[|phase.trace| - 1], pid)
    ensures ErrorsNameCalls(run, pid)
  {
    if run.result.Err? {
      assert run.trace[|run.trace| - 1] == phase.trace[|phase.trace| - 1];
    }
  }

  /**
   * A launch fails with `InjectionFailed` exactly when it got to the injections
   * and the first module whose cycle fails was opened and injected but its wait failed.
   */
  lemma WaitFailureIsInjectionFailed(c: Config, env: Env)
    ensures var r := Launch(c, env).result;
      (r.Err? && r.error.InjectionFailed?) <==>
        && Reached(c, env)
        && var dlls := Modules(c, env).value; var j := FirstFailure(env, |dlls|, 0);
        && j < |dlls| && env.outcome(j).open.Ok? && env.outcome(j).inject.Ok? && env.outcome(j).wait == WAIT_FAILED
  {
    LaunchPhases(c, env);
    if Reached(c, env) {
      PhaseWaitFailure(env, Modules(c, env).value, env.spawn.value.processId);
    }
  }

  lemma {:induction false} FirstFailureReadsOutcomes(e1: Env, e2: Env, n: nat, k: nat)
    requires k <= n && e1.outcome == e2.outcome
    ensures FirstFailure(e1, n, k) == FirstFailure(e2, n, k)
    decreases n - k
  {
    if k < n && CycleOk(e1.outcome(k)) {
      FirstFailureReadsOutcomes(e1, e2, n, k + 1);
    }
  }

  lemma InjectedIgnoresResumeCount(env: Env, before: seq<Action>, dlls: seq<string>, pid: nat, count: bv32)
    ensures Injected(env.(resumeCount := count), before, dlls, pid) == Injected(env, before, dlls, pid)
  {
    FirstFailureReadsOutcomes(env.(resumeCount := count), env, |dlls|, 0);
  }

  /** What `ResumeThread` returns changes neither the result nor the calls of a launch. */
  lemma ResumeCountIgnored(c: Config, env: Env, count: bv32)
    ensures Launch(c, env.(resumeCount := count)) == Launch(c, env)
  {
    var other := env.(resumeCount := count);
    assert Modules(c, other) == Modules(c, env);
    if Reached(c, env) {
      InjectedIgnoresResumeCount(env, Prologue(c), Modules(c, env).value, env.spawn.value.processId, count);
    }
  }

  lemma SpawnedBySpawnAction(a: Config, b: Config, env: Env, dlls: seq<string>)
    requires SpawnAction(a) == SpawnAction(b)
    ensures Spawned(a, env, dlls) == Spawned(b, env, dlls)
  {
    assert Prologue(a) == Prologue(b);
  }

  /** An empty mod stands for "valve": the two launch identically. */
  lemma EmptyGameModIsValve(c: Config, env: Env)
    ensures Launch(c.(gamemod := []), env) == Launch(c.(gamemod := DEFAULT_GAMEMOD), env)
  {
    var a, b := c.(gamemod := []), c.(gamemod := DEFAULT_GAMEMOD);
    assert Modules(a, env) == Modules(b, env);
    if Modules(a, env).Ok? {
      SpawnedBySpawnAction(a, b, env, Modules(a, env).value);
    }
  }

  /** The default configuration names no executable, so nothing is launched on any platform. */
  lemma DefaultConfigLaunchesNothing(env: Env)
    ensures Launch(DefaultConfig(), env) == Run(Err(NoHLExe), [])
    ensures RunBxtStub(DefaultConfig()) == Err(NoHLExe)
  {
  }

  /**
   * A new profile with only the executable set still has both modules enabled
   * with empty paths, so the launch stops at bxt-rs's empty path before any call.
   */
  lemma ExecutableAloneIsNotEnough(hlexe: string, env: Env)
    requires hlexe != []
    ensures Launch(DefaultConfig().(hlexe := hlexe), env) == Run(Err(FileDoesNotExist([])), [])
  {
    var c := DefaultConfig().(hlexe := hlexe);
    assert c.enableBxtRs && c.bxtRs == [] && !IsRegularFile(env, c.bxtRs);
  }

  /** The launcher on other platforms fails exactly when the Windows launcher fails for want of an executable. */
  lemma StubAgreesOnMissingExecutable(c: Config, env: Env)
    ensures RunBxtStub(c).Err? <==> Launch(c, env).result == Err(NoHLExe)
  {
    LaunchPhases(c, env);
    ErrorNamesFailedCall(c, env);
  }
}
