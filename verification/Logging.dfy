/** adapters/logging/setup.py: starting the logging runtime, and what that does to the process environment. */
module Logging {
  import opened Outcomes

  // ---------------------------------------------------------------- which `.env`

  /** What asking the file system about one path gives. */
  datatype Answer = Yes | No | Denied

  /** One directory on the way up: its `.env`, and what marks a project root. */
  datatype Directory = Directory(dotenv: Answer, pyproject: Answer, git: Answer)

  datatype Probe = Probe(found: bool, stop: bool)

  /** `_dotenv_in`: an error on the way passes the directory over, a marker already seen counts. */
  function DotenvIn(d: Directory): Probe {
    if d.dotenv.Denied? then Probe(false, false)
    else if d.dotenv.Yes? then Probe(true, true)
    else if d.pyproject.Denied? then Probe(false, false)
    else if d.pyproject.Yes? then Probe(false, true)
    else Probe(false, d.git.Yes?)
  }

  predicate ProjectRoot(d: Directory) {
    d.dotenv.No? && (d.pyproject.Yes? || (d.pyproject.No? && d.git.Yes?))
  }

  /** `_nearest_dotenv`: the index of the directory whose `.env` is taken, from the working directory up. */
  method NearestDotenv(directories: seq<Directory>) returns (at: Option<nat>)
    ensures at.Some? ==>
              && at.value < |directories| && directories[at.value].dotenv.Yes?
              && forall k :: 0 <= k < at.value ==> !directories[k].dotenv.Yes? && !ProjectRoot(directories[k])
    ensures at.None? ==>
              forall k :: 0 <= k < |directories| && directories[k].dotenv.Yes? ==>
                exists j :: 0 <= j < k && ProjectRoot(directories[j])
  {
    for k := 0 to |directories|
      invariant forall j :: 0 <= j < k ==> !directories[j].dotenv.Yes? && !ProjectRoot(directories[j])
    {
      var probe := DotenvIn(directories[k]);
      if probe.found {
        return Some(k);
      }
      if probe.stop {
        assert ProjectRoot(directories[k]);
        return None;
      }
    }
    return None;
  }

  // ---------------------------------------------------------------- the environment

  type Environment = map<string, string>

  /** The variables of a `.env`, one line for each name; a name alone has no value. */
  type Lines = seq<(string, Option<string>)>

  predicate LogVariable(name: string) {
    "LOG_" <= name
  }

  ghost predicate OneLineEach(lines: Lines) {
    forall i, j :: 0 <= i < j < |lines| ==> lines[i].0 != lines[j].0
  }

  /** The environment with the `LOG_*` lines it does not have yet. */
  function Loaded(env: Environment, lines: Lines): Environment {
    if lines == [] then env
    else
      var before := Loaded(env, lines[..|lines| - 1]);
      var line := lines[|lines| - 1];
      if LogVariable(line.0) && line.1.Some? && line.0 !in before then before[line.0 := line.1.value] else before
  }

  function WithoutLog(env: Environment): Environment {
    map name | name in env && !LogVariable(name) :: env[name]
  }

  predicate Adds(env: Environment, line: (string, Option<string>)) {
    "LOG_" <= line.0 && line.1.Some? && line.0 !in env
  }

  ghost predicate Added(env: Environment, lines: Lines, name: string) {
    exists i :: 0 <= i < |lines| && Adds(env, lines[i]) && lines[i].0 == name
  }

  lemma AddedWithLast(env: Environment, lines: Lines, name: string)
    requires lines != []
    ensures var n := |lines| - 1;
            Added(env, lines, name) <==> Added(env, lines[..n], name) || (Adds(env, lines[n]) && lines[n].0 == name)
  {
    var n := |lines| - 1;
    if Added(env, lines[..n], name) {
      var i :| 0 <= i < n && Adds(env, lines[..n][i]) && lines[..n][i].0 == name;
      assert Adds(env, lines[i]) && lines[i].0 == name;
    }
    if i :| 0 <= i < n && Adds(env, lines[i]) && lines[i].0 == name {
      assert Adds(env, lines[..n][i]) && lines[..n][i].0 == name;
    }
  }

  /** Exactly the absent `LOG_*` lines with a value are added; nothing is replaced or removed. */
  lemma {:induction false} LoadedIs(env: Environment, lines: Lines)
    requires OneLineEach(lines)
    ensures forall name :: name in Loaded(env, lines) <==> name in env || Added(env, lines, name)
    ensures forall name :: name in env ==> Loaded(env, lines)[name] == env[name]
    ensures forall i :: 0 <= i < |lines| && Adds(env, lines[i]) ==>
              lines[i].0 in Loaded(env, lines) && Loaded(env, lines)[lines[i].0] == lines[i].1.value
  {
    if lines != [] {
      var n := |lines| - 1;
      LoadedIs(env, lines[..n]);
      forall name ensures name in Loaded(env, lines) <==> name in env || Added(env, lines, name) {
        AddedWithLast(env, lines, name);
        assert !(exists i :: 0 <= i < n && lines[..n][i].0 == lines[n].0);
      }
      forall i | 0 <= i < |lines| && Adds(env, lines[i])
        ensures lines[i].0 in Loaded(env, lines) && Loaded(env, lines)[lines[i].0] == lines[i].1.value
      {
        if i < n { assert Adds(env, lines[..n][i]); }
      }
    }
  }

  // ---------------------------------------------------------------- one call

  /** The settings a start is tried with. */
  datatype Settings = Section(text: string) | Defaults

  /** What a start ends in: a `ValueError` and any other exception have not started the runtime. */
  datatype Attempt = Started | Refused | Crashed

  /** The runtime that is running: its settings, and the environment it read. */
  datatype Run = Run(settings: Settings, seen: Environment)

  datatype Exit = Returned | InvalidLoggingConfig | Escaped

  datatype State = State(env: Environment, running: Option<Run>)

  datatype Ended = Ended(state: State, exit: Exit)

  /** One call of `init_logging`: the section, the lines of its `.env`, and how each start it may try ends. */
  datatype Call = Call(section: string, lines: Lines, first: Attempt, withDefaults: Attempt, withoutLog: Attempt)

  function Begin(s: State, settings: Settings, seen: Environment): State {
    s.(running := Some(Run(settings, seen)))
  }

  /** `_start_default_logging`: with the `LOG_*` variables, and only if that is refused without them. */
  function DefaultLogging(s: State, call: Call): Ended {
    match call.withDefaults
    case Started => Ended(Begin(s, Defaults, s.env), Returned)
    case Crashed => Ended(s, Escaped)
    case Refused =>
      if call.withoutLog.Started? then Ended(Begin(s, Defaults, WithoutLog(s.env)), Returned)
      else Ended(s, Escaped)
  }

  function InitLogging(s: State, call: Call): Ended {
    if s.running.Some? then Ended(s, Returned)
    else
      var loaded := s.(env := Loaded(s.env, call.lines));
      match call.first
      case Started => Ended(Begin(loaded, Section(call.section), loaded.env), Returned)
      case Crashed => Ended(loaded, Escaped)
      case Refused =>
        var fallback := DefaultLogging(loaded, call);
        if fallback.exit.Returned? then Ended(fallback.state, InvalidLoggingConfig) else fallback
  }

  class Process {
    var env: Environment
    var running: Option<Run>

    function Now(): State
      reads this
    {
      State(env, running)
    }

    /** `_load_log_variables` for a file that could be read. */
    method LoadLogVariables(lines: Lines)
      modifies this`env
      ensures env == Loaded(old(env), lines)
    {
      for i := 0 to |lines|
        invariant env == Loaded(old(env), lines[..i])
      {
        assert lines[..i + 1][..i] == lines[..i];
        var name, value := lines[i].0, lines[i].1;
        if LogVariable(name) && value.Some? {
          if name !in env {
            env := env[name := value.value];
          }
        }
      }
      assert lines[..|lines|] == lines;
    }

    /** The first half of `log_variables_hidden`. */
    method HideLogVariables() returns (hidden: Environment)
      modifies this`env
      ensures env == WithoutLog(old(env)) && env + hidden == old(env)
      ensures forall name :: name in env <==> name in old(env) && !("LOG_" <= name)
      ensures forall name :: name in hidden <==> name in old(env) && "LOG_" <= name
    {
      var names := set name | name in env && LogVariable(name);
      hidden := map[];
      while names != {}
        invariant names <= old(env).Keys && forall name :: name in names ==> name in env && LogVariable(name)
        invariant forall name :: name in env <==> name in old(env) && (LogVariable(name) ==> name in names)
        invariant forall name :: name in hidden <==> name in old(env) && LogVariable(name) && name !in names
        invariant forall name :: name in env ==> env[name] == old(env)[name]
        invariant forall name :: name in hidden ==> hidden[name] == old(env)[name]
        decreases names
      {
        var name :| name in names;
        hidden := hidden[name := env[name]];
        env := env - {name};
        names := names - {name};
      }
    }

    /** `lib_log_rich.runtime.init`: a start that succeeds has read the environment as it is now. */
    method Init(settings: Settings, attempt: Attempt)
      modifies this`running
      ensures running == if attempt.Started? then Some(Run(settings, env)) else old(running)
    {
      if attempt.Started? {
        running := Some(Run(settings, env));
      }
    }

    method StartDefaultLogging(call: Call) returns (exit: Exit)
      modifies this
      ensures Ended(Now(), exit) == DefaultLogging(old(Now()), call)
    {
      var attempt := call.withDefaults;
      Init(Defaults, attempt);
      if attempt.Refused? {
        var hidden := HideLogVariables();
        attempt := call.withoutLog;
        Init(Defaults, attempt);
        env := env + hidden;
      }
      return if attempt.Started? then Returned else Escaped;
    }

    method RunInitLogging(call: Call) returns (exit: Exit)
      modifies this
      ensures Ended(Now(), exit) == InitLogging(old(Now()), call)
    {
      if running.Some? {
        return Returned;
      }
      LoadLogVariables(call.lines);
      Init(Section(call.section), call.first);
      if call.first.Crashed? {
        return Escaped;
      }
      if call.first.Refused? {
        exit := StartDefaultLogging(call);
        return if exit.Returned? then InvalidLoggingConfig else exit;
      }
      return Returned;
    }
  }

  // ---------------------------------------------------------------- what every exit leaves

  /** Does the call get logging to run, if it does not run yet? */
  predicate GetsStarted(call: Call) {
    call.first.Started? || (call.first.Refused? &&
      (call.withDefaults.Started? || (call.withDefaults.Refused? && call.withoutLog.Started?)))
  }

  /** What a call that gets logging to run starts it with, when the environment is `env` by then. */
  function StartedWith(call: Call, env: Environment): Run {
    if call.first.Started? then Run(Section(call.section), env)
    else Run(Defaults, if call.withDefaults.Started? then env else WithoutLog(env))
  }

  /** On every exit of a first call the environment is the one before plus the absent `LOG_*` lines. */
  lemma EveryExitLeavesTheEnvironment(s: State, call: Call)
    ensures InitLogging(s, call).state.env == if s.running.Some? then s.env else Loaded(s.env, call.lines)
  {
  }

  /** Logging runs after a call exactly when the call returned or reported its configuration as refused. */
  lemma RunsUnlessEscaped(s: State, call: Call)
    ensures var end := InitLogging(s, call);
            && (end.state.running.Some? <==> !end.exit.Escaped?)
            && (end.exit.Escaped? ==> end.state.running == s.running == None)
  {
  }

  function AfterCalls(s: State, calls: seq<Call>): State
    decreases |calls|
  {
    if calls == [] then s else AfterCalls(InitLogging(s, calls[0]).state, calls[1..])
  }

  /** Once logging runs, no sequence of calls changes anything. */
  lemma {:induction false} LaterCallsDoNothing(s: State, calls: seq<Call>)
    requires s.running.Some?
    ensures AfterCalls(s, calls) == s
    decreases |calls|
  {
    if calls != [] {
      LaterCallsDoNothing(s, calls[1..]);
    }
  }

  /** How each of a sequence of calls ends. */
  function Exits(s: State, calls: seq<Call>): (exits: seq<Exit>)
    ensures |exits| == |calls|
    decreases |calls|
  {
    if calls == [] then [] else [InitLogging(s, calls[0]).exit] + Exits(InitLogging(s, calls[0]).state, calls[1..])
  }

  lemma {:induction false} RunningReturns(s: State, calls: seq<Call>)
    requires s.running.Some?
    ensures forall j :: 0 <= j < |calls| ==> Exits(s, calls)[j] == Returned
    decreases |calls|
  {
    if calls != [] {
      RunningReturns(s, calls[1..]);
    }
  }

  /**
   * Of any sequence of calls, all that follow one that started logging return at once. So a refused
   * configuration is reported at most once, and only by a call before which every other one escaped.
   */
  lemma {:induction false} RefusalIsReportedOnce(s: State, calls: seq<Call>, i: nat, j: nat)
    requires s.running.None? && i < j < |calls|
    ensures Exits(s, calls)[i] != Escaped ==>
              Exits(s, calls)[j] == Returned && AfterCalls(s, calls) == AfterCalls(s, calls[..i + 1])
    ensures Exits(s, calls)[j] == InvalidLoggingConfig ==> Exits(s, calls)[i] == Escaped
    decreases |calls|
  {
    var next := InitLogging(s, calls[0]).state;
    RunsUnlessEscaped(s, calls[0]);
    assert calls[..i + 1][1..] == calls[1..][..i];
    if next.running.Some? {
      RunningReturns(next, calls[1..]);
      LaterCallsDoNothing(next, calls[1..]);
      LaterCallsDoNothing(next, calls[1..][..i]);
    } else if i > 0 {
      RefusalIsReportedOnce(next, calls[1..], i - 1, j - 1);
    }
  }

  /** A call gets logging to run, or reports its section, as its own starts end; a running runtime makes it return. */
  lemma ExitOfCall(s: State, call: Call)
    ensures var end := InitLogging(s, call);
            && (end.state.running.Some? <==> s.running.Some? || GetsStarted(call))
            && (end.exit == InvalidLoggingConfig <==> s.running.None? && GetsStarted(call) && call.first.Refused?)
            && (end.exit == Escaped <==> s.running.None? && !GetsStarted(call))
  {
  }

  /**
   * When does a call of a sequence report its configuration? Exactly when no call before it got logging
   * to run, its own section is refused, and the defaults start.
   */
  lemma {:induction false} ReportsIff(s: State, calls: seq<Call>, j: nat)
    requires s.running.None? && j < |calls|
    ensures Exits(s, calls)[j] == InvalidLoggingConfig <==>
            && (forall i :: 0 <= i < j ==> !GetsStarted(calls[i]))
            && calls[j].first.Refused? && GetsStarted(calls[j])
    decreases |calls|
  {
    var next := InitLogging(s, calls[0]).state;
    ExitOfCall(s, calls[0]);
    if j > 0 {
      assert forall i :: 0 < i < j ==> calls[i] == calls[1..][i - 1];
      assert forall i :: 0 <= i < j - 1 ==> calls[1..][i] == calls[i + 1];
      if next.running.Some? {
        RunningReturns(next, calls[1..]);
      } else {
        ReportsIff(next, calls[1..], j - 1);
      }
    }
  }

  ghost predicate LaterReturn(exits: seq<Exit>) {
    forall j :: 0 < j < |exits| ==> exits[j] == Returned
  }

  /**
   * "Only the first call can raise", read as "every later call returns": it holds of a sequence exactly
   * when the first call gets logging to run, or the second does so with its own section.
   */
  lemma LaterCallsReturnIff(s: State, calls: seq<Call>)
    requires s.running.None? && |calls| >= 2
    ensures LaterReturn(Exits(s, calls)) <==> GetsStarted(calls[0]) || calls[1].first.Started?
  {
    var next := InitLogging(s, calls[0]).state;
    var exits, rest := Exits(s, calls), Exits(next, calls[1..]);
    ExitOfCall(s, calls[0]);
    assert exits == [InitLogging(s, calls[0]).exit] + rest;
    if next.running.Some? {
      RunningReturns(next, calls[1..]);
    } else {
      var third := InitLogging(next, calls[1]).state;
      ExitOfCall(next, calls[1]);
      assert rest == [InitLogging(next, calls[1]).exit] + Exits(third, calls[1..][1..]);
      if calls[1].first.Started? {
        RunningReturns(third, calls[1..][1..]);
      } else {
        assert exits[1] == rest[0] != Returned;
      }
    }
  }

  /** The number of calls up to and including the first that gets logging to run; all of them if none does. */
  function Tried(calls: seq<Call>): (n: nat)
    ensures n <= |calls|
    ensures forall k :: 0 <= k < n - 1 ==> !GetsStarted(calls[k])
    ensures n < |calls| ==> n > 0 && GetsStarted(calls[n - 1])
  {
    if calls == [] then 0 else if GetsStarted(calls[0]) then 1 else 1 + Tried(calls[1..])
  }

  lemma ReportsLast(s: State, calls: seq<Call>, j: nat)
    requires s.running.None? && j < |calls|
    ensures Exits(s, calls)[j] == InvalidLoggingConfig <==>
              j == Tried(calls) - 1 && GetsStarted(calls[j]) && calls[j].first.Refused?
  {
    ReportsIff(s, calls, j);
  }

  ghost predicate OnlyFirstReports(exits: seq<Exit>) {
    forall j :: 0 < j < |exits| ==> exits[j] != InvalidLoggingConfig
  }

  /**
   * Read as "only the first call can report its configuration", it holds exactly unless the first call
   * that gets logging to run is a later one, and does so with the defaults.
   */
  lemma OnlyTheFirstReportsIff(s: State, calls: seq<Call>)
    requires s.running.None?
    ensures var n := Tried(calls);
            OnlyFirstReports(Exits(s, calls)) <==>
              n <= 1 || !GetsStarted(calls[n - 1]) || !calls[n - 1].first.Refused?
  {
    var n, exits := Tried(calls), Exits(s, calls);
    forall j | 0 <= j < |calls|
      ensures exits[j] == InvalidLoggingConfig <==>
                j == n - 1 && GetsStarted(calls[j]) && calls[j].first.Refused?
    {
      ReportsLast(s, calls, j);
    }
  }

  /** The environment after the `.env` of each of these calls, in order, was loaded. */
  function LoadedByAll(env: Environment, calls: seq<Call>): Environment
    decreases |calls|
  {
    if calls == [] then env else LoadedByAll(Loaded(env, calls[0].lines), calls[1..])
  }

  /**
   * What any sequence of calls leaves when logging does not run at first: the `.env` files of the calls up
   * to the first that gets it to run are loaded and no other, and what runs is what that call started,
   * seeing the environment of that moment, without its `LOG_*` variables only if the defaults were
   * refused with them. If no call does, nothing runs.
   */
  lemma {:induction false} WhatCallsLeave(s: State, calls: seq<Call>)
    requires s.running.None?
    ensures var n := Tried(calls);
            var env := LoadedByAll(s.env, calls[..n]);
            && AfterCalls(s, calls).env == env
            && AfterCalls(s, calls).running ==
               if n > 0 && GetsStarted(calls[n - 1]) then Some(StartedWith(calls[n - 1], env)) else None
    decreases |calls|
  {
    if calls != [] {
      var next := InitLogging(s, calls[0]).state;
      assert calls[..Tried(calls)][1..] == calls[1..][..Tried(calls) - 1];
      if GetsStarted(calls[0]) {
        LaterCallsDoNothing(next, calls[1..]);
      } else {
        WhatCallsLeave(next, calls[1..]);
      }
    }
  }

  /** Whatever is called and however it ends, no variable is replaced or removed and only `LOG_*` ones are added. */
  ghost predicate OnlyLogAdded(before: Environment, after: Environment) {
    && (forall name :: name in before ==> name in after && after[name] == before[name])
    && (forall name :: name in after && name !in before ==> "LOG_" <= name)
  }

  lemma {:induction false} LoadedOnlyAdds(env: Environment, lines: Lines)
    ensures OnlyLogAdded(env, Loaded(env, lines))
  {
    if lines != [] {
      LoadedOnlyAdds(env, lines[..|lines| - 1]);
    }
  }

  lemma {:induction false} CallsOnlyAddLog(s: State, calls: seq<Call>)
    ensures OnlyLogAdded(s.env, AfterCalls(s, calls).env)
    decreases |calls|
  {
    if calls != [] {
      var next := InitLogging(s, calls[0]).state;
      EveryExitLeavesTheEnvironment(s, calls[0]);
      LoadedOnlyAdds(s.env, calls[0].lines);
      CallsOnlyAddLog(next, calls[1..]);
    }
  }

  /**
   * The shortest case: a call that does not get logging to run leaves it to the next one to report its
   * configuration.
   */
  lemma LaterCallCanReport(s: State, first: Call, second: Call)
    requires s.running.None? && !GetsStarted(first)
    requires second.first.Refused? && GetsStarted(second)
    ensures Exits(s, [first, second]) == [Escaped, InvalidLoggingConfig]
  {
    var next := InitLogging(s, first).state;
    ExitOfCall(s, first);
    assert [first, second][1..] == [second] && [second][1..] == [];
    assert Exits(next, [second]) == [InitLogging(next, second).exit] + Exits(InitLogging(next, second).state, []);
  }
}
