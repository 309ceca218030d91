/**
 * Running a task with the droidrun CLI (droidrun_gui/task_executor.py): choosing the LLM provider
 * from the model label, building the environment and the command line, and the worker that
 * installs the Portal APK on a device's first run, launches the CLI and reports how it ended.
 *
 * Subprocesses, files and the clock are outside: what a subprocess printed or raised, and whether
 * writing the flag file raised, are parameters; the flag files are a set of paths; the Qt signals
 * are the sequences of values emitted.
 */
module TaskExecution {
  import opened Wrappers
  import opened Text
  import opened ApiKeys

  // ---------------------------------------------------------------------------------------------
  // Provider, environment and command
  // ---------------------------------------------------------------------------------------------

  /**
   * `get_llm_provider`: (provider, model) by the first provider name the label mentions. The
   * provider is one of three, a label naming OpenAI always gets OpenAI, and Gemini is the fallback.
   */
  function LlmProvider(modelName: string): (r: (string, string))
    ensures r.0 in {"openai", "anthropic", "gemini"}
    ensures Contains(modelName, "OpenAI") ==> r == ("openai", "gpt-4")
    ensures !Contains(modelName, "OpenAI") && Contains(modelName, "Anthropic") ==> r == ("anthropic", "claude-3-sonnet-20240229")
    ensures r.0 == "gemini" ==> r.1 == "gemini-2.0-flash"
    ensures r.0 == "gemini" <==> !Contains(modelName, "OpenAI") && !Contains(modelName, "Anthropic")
  {
    if Contains(modelName, "OpenAI") then ("openai", "gpt-4")
    else if Contains(modelName, "Anthropic") then ("anthropic", "claude-3-sonnet-20240229")
    else ("gemini", "gemini-2.0-flash")
  }

  /** The three model labels the main window offers select the three providers. */
  lemma GuiLabelsSelectProviders()
    ensures LlmProvider("OpenAI GPT-4") == ("openai", "gpt-4")
    ensures LlmProvider("Anthropic Claude") == ("anthropic", "claude-3-sonnet-20240229")
    ensures LlmProvider("Google Gemini") == ("gemini", "gemini-2.0-flash")
  {
    OpenAiLabel();
    AnthropicLabel();
    GeminiLabel();
  }

  lemma OpenAiLabel()
    ensures Contains("OpenAI GPT-4", "OpenAI")
  {
    ContainsWithin("", "OpenAI", " GPT-4");
    assert "" + "OpenAI" + " GPT-4" == "OpenAI GPT-4";
  }

  lemma AnthropicLabel()
    ensures Contains("Anthropic Claude", "Anthropic") && !Contains("Anthropic Claude", "OpenAI")
  {
    ContainsWithin("", "Anthropic", " Claude");
    assert "" + "Anthropic" + " Claude" == "Anthropic Claude";
    AbsentFirstChar("Anthropic Claude", "OpenAI");
  }

  lemma GeminiLabel()
    ensures !Contains("Google Gemini", "OpenAI") && !Contains("Google Gemini", "Anthropic")
  {
    var text := "Google Gemini";
    assert 'O' !in text by {
      forall k | 0 <= k < |text| ensures text[k] != 'O' { }
    }
    assert 'A' !in text by {
      forall k | 0 <= k < |text| ensures text[k] != 'A' { }
    }
    AbsentFirstChar(text, "OpenAI");
    AbsentFirstChar(text, "Anthropic");
  }

  /** `sub` cannot occur in a text that lacks its first character. */
  lemma {:induction false} AbsentFirstChar(s: string, sub: string)
    requires sub != [] && sub[0] !in s
    ensures !Contains(s, sub)
    decreases |s|
  {
    if s != [] {
      assert s[0] != sub[0];
      AbsentFirstChar(s[1..], sub);
    }
  }

  /** The environment variable that carries a provider's key. */
  function KeyVariable(provider: string): string {
    Upper(provider) + "_API_KEY"
  }

  /**
   * The environment of the CLI: the GUI's own, plus the provider's key when one is set and
   * non-empty. Only the provider's key variable can change.
   */
  function BuildEnv(ambient: map<string, string>, provider: string, key: Option<string>): (env: map<string, string>)
    ensures forall v :: v != KeyVariable(provider) ==> (v in env <==> v in ambient)
    ensures forall v :: v != KeyVariable(provider) && v in ambient ==> env[v] == ambient[v]
    ensures key.Some? && key.value != "" ==> KeyVariable(provider) in env && env[KeyVariable(provider)] == key.value
    ensures key.None? || key.value == "" ==> env == ambient
  {
    if key.Some? && key.value != "" then ambient[KeyVariable(provider) := key.value] else ambient
  }

  /** The key stored under a provider is the one handed to the CLI. */
  lemma StoredKeyReachesCli(keys: map<string, string>, provider: string, key: string, ambient: map<string, string>)
    requires key != ""
    ensures var env := BuildEnv(ambient, provider, Lookup(Store(keys, provider, key), provider));
      KeyVariable(provider) in env && env[KeyVariable(provider)] == key
  {
  }

  const DefaultSteps: int := 15

  /** The CLI command line `start_task` builds. */
  function BuildCommand(task: string, deviceId: string, provider: string, model: string, steps: int): (cmd: seq<string>)
    ensures |cmd| == 10 && cmd[0] == "droidrun" && cmd[1] == task && cmd[3] == deviceId
  {
    ["droidrun", task, "--device", deviceId, "--provider", provider, "--model", model, "--steps", IntToString(steps)]
  }

  /** Every argument is in its place, and the step count reads back as given. */
  lemma BuildCommandReadsBack(task: string, deviceId: string, provider: string, model: string, steps: int)
    ensures var cmd := BuildCommand(task, deviceId, provider, model, steps);
      && |cmd| == 10 && cmd[0] == "droidrun" && cmd[1] == task
      && cmd[2] == "--device" && cmd[3] == deviceId && cmd[4] == "--provider" && cmd[5] == provider
      && cmd[6] == "--model" && cmd[7] == model && cmd[8] == "--steps"
      && ParseInt(cmd[9]) == Some(steps)
  {
    var cmd := BuildCommand(task, deviceId, provider, model, steps);
    assert cmd[9] == IntToString(steps);
    ParseIntToString(steps);
  }

  /** The command actually started: a leading "droidrun" is replaced by the CLI's path. */
  function ExecutedCommand(cliPath: string, cmd: seq<string>): (argv: seq<string>)
    requires cmd != []
    ensures |argv| == |cmd| && argv[1..] == cmd[1..]
    ensures argv[0] == (if cmd[0] == "droidrun" then cliPath else cmd[0])
  {
    if cmd[0] == "droidrun" then [cliPath] + cmd[1..] else cmd
  }

  // ---------------------------------------------------------------------------------------------
  // The worker
  // ---------------------------------------------------------------------------------------------

  /** The file that records that the Portal APK was installed on a device. */
  function FlagFile(deviceId: string): (path: string)
    ensures |path| == |deviceId| + 28 && path[23..23 + |deviceId|] == deviceId
  {
    "~/.droidrun-gui/portal_" + deviceId + ".flag"
  }

  /** Different devices have different flag files. */
  lemma FlagFileInjective(a: string, b: string)
    requires FlagFile(a) == FlagFile(b)
    ensures a == b
  {
    var n := |"~/.droidrun-gui/portal_"|;
    assert |a| == |b|;
    assert a == FlagFile(a)[n..n + |a|];
    assert b == FlagFile(b)[n..n + |b|];
  }

  function SetupCommand(cliPath: string, apkPath: string, deviceId: string): seq<string> {
    [cliPath, "setup", "--path=" + apkPath, "--device", deviceId]
  }

  function InstallNotice(cliPath: string, apkPath: string, deviceId: string): string {
    "首次在该设备上运行，自动安装Portal APK: " + Join(SetupCommand(cliPath, apkPath, deviceId), " ")
  }

  /** How the setup subprocess ended: it exited with a code and output, or it raised. */
  datatype SetupOutcome =
    | SetupExited(returncode: int, stdout: string, stderr: string)
    | SetupRaised(error: string)

  /** One `finished_signal`: success, message, steps taken. */
  datatype Finish = Finish(success: bool, message: string, steps: int)

  const InterruptNotice: string := "[中断] 已终止子进程。"

  /** `self.process`: none yet, running the given command, terminated by `stop`, or exited. */
  datatype Process =
    | NotStarted
    | Running(argv: seq<string>)
    | Terminated(argv: seq<string>)
    | Exited(returncode: int)

  /** Setup ran, exited with 0 and the flag file was written. */
  predicate SetupSucceeded(setup: SetupOutcome, flagError: Option<string>) {
    setup.SetupExited? && setup.returncode == 0 && flagError.None?
  }

  /** The lines the setup step emits after its notice. */
  function SetupOutputs(setup: SetupOutcome, flagError: Option<string>): seq<string> {
    match setup
    case SetupRaised(e) => ["Portal 安装错误: " + e]
    case SetupExited(rc, out, err) =>
      [out + "\n" + err] + (if rc == 0 && flagError.Some? then ["Portal 安装错误: " + flagError.value] else [])
  }

  /** How a failed setup step ends the run; None when it succeeded. */
  function SetupFailure(setup: SetupOutcome, flagError: Option<string>): (f: Option<Finish>)
    ensures f.None? <==> SetupSucceeded(setup, flagError)
    ensures f.Some? ==> !f.value.success && f.value.steps == 0
  {
    match setup
    case SetupRaised(e) => Some(Finish(false, e, 0))
    case SetupExited(rc, _, _) =>
      if rc != 0 then Some(Finish(false, "Portal APK 安装失败", 0))
      else if flagError.Some? then Some(Finish(false, flagError.value, 0))
      else None
  }

  /** The message of the IndexError `self.cmd[0]` raises on an empty command. */
  const EmptyCommandError: string := "list index out of range"

  /**
   * What `run` does up to the start of the CLI: the lines it emits, the finish it reports if it
   * stops there, whether it writes the flag file, the command list afterwards, and the command
   * started if it gets that far.
   */
  datatype LaunchResult = LaunchResult(
    outputs: seq<string>, finish: Option<Finish>, writesFlag: bool, command: seq<string>, argv: Option<seq<string>>)

  /** Up to the start of the CLI, a run either starts it or reports a failed finish, never both. */
  function LaunchSpec(
    flagPresent: bool, cliPath: string, apkPath: string, deviceId: string, cmd: seq<string>,
    setup: SetupOutcome, flagError: Option<string>, popenError: Option<string>): (r: LaunchResult)
    ensures r.finish.Some? <==> r.argv.None?
    ensures r.finish.Some? ==> !r.finish.value.success && r.finish.value.steps == 0
  {
    var install := if flagPresent then [] else [InstallNotice(cliPath, apkPath, deviceId)] + SetupOutputs(setup, flagError);
    if !flagPresent && SetupFailure(setup, flagError).Some? then
      LaunchResult(install, SetupFailure(setup, flagError), false, cmd, None)
    else
      var start := StartSpec(cliPath, cmd, popenError);
      LaunchResult(install + start.outputs, start.finish, !flagPresent, start.command, start.argv)
  }

  /** The echo of the command and the start of the CLI, once the Portal is known to be installed. */
  function StartSpec(cliPath: string, cmd: seq<string>, popenError: Option<string>): LaunchResult {
    var echoed := ["执行命令: " + Join(cmd, " ")];
    if cmd == [] then
      LaunchResult(echoed + ["错误: " + EmptyCommandError], Some(Finish(false, EmptyCommandError, 0)), false, cmd, None)
    else
      var command := ExecutedCommand(cliPath, cmd);
      match popenError
      case Some(e) => LaunchResult(echoed + ["错误: " + e], Some(Finish(false, e, 0)), false, command, None)
      case None => LaunchResult(echoed, None, false, command, Some(command))
  }

  /**
   * The flag file is written exactly on a device's first run whose setup exits with 0, and the CLI
   * is started only on a flagged device or after such a setup.
   */
  lemma FlagWrittenOnlyAfterSetup(
    flagPresent: bool, cliPath: string, apkPath: string, deviceId: string, cmd: seq<string>,
    setup: SetupOutcome, flagError: Option<string>, popenError: Option<string>)
    ensures var r := LaunchSpec(flagPresent, cliPath, apkPath, deviceId, cmd, setup, flagError, popenError);
      && (r.writesFlag <==> !flagPresent && SetupSucceeded(setup, flagError))
      && (r.argv.Some? ==> flagPresent || SetupSucceeded(setup, flagError))
      && (r.argv.Some? <==> (flagPresent || SetupSucceeded(setup, flagError)) && cmd != [] && popenError.None?)
  {
  }

  /** On a flagged device the setup is skipped: the first line is the echo of the command. */
  lemma FlaggedDeviceSkipsSetup(
    cliPath: string, apkPath: string, deviceId: string, cmd: seq<string>,
    setup: SetupOutcome, flagError: Option<string>, popenError: Option<string>)
    ensures var r := LaunchSpec(true, cliPath, apkPath, deviceId, cmd, setup, flagError, popenError);
      r.outputs[0] == "执行命令: " + Join(cmd, " ") && !r.writesFlag
  {
  }

  /** The finish a whole run reports, given how the started CLI exits. */
  function RunFinish(launch: LaunchResult, returncode: int): Finish {
    if launch.finish.Some? then launch.finish.value else Finish(returncode == 0, "CLI执行完成", 0)
  }

  /**
   * A run reports success exactly when the setup was not needed or succeeded, the CLI started,
   * and it exited with 0; the steps reported are always 0.
   */
  lemma RunSucceedsIff(
    flagPresent: bool, cliPath: string, apkPath: string, deviceId: string, cmd: seq<string>,
    setup: SetupOutcome, flagError: Option<string>, popenError: Option<string>, returncode: int)
    ensures var f := RunFinish(LaunchSpec(flagPresent, cliPath, apkPath, deviceId, cmd, setup, flagError, popenError), returncode);
      && (f.success <==> (flagPresent || SetupSucceeded(setup, flagError)) && cmd != [] && popenError.None? && returncode == 0)
      && f.steps == 0
  {
  }

  /** The flag files on disk. */
  class FlagFiles {
    var present: set<string>

    constructor (present: set<string>)
      ensures this.present == present
    {
      this.present := present;
    }
  }

  class TaskWorker {
    var cmd: seq<string>
    const env: map<string, string>
    const deviceId: string
    var process: Process
    /** The values `output_signal` emitted, in order. */
    var outputs: seq<string>
    /** The values `finished_signal` emitted, in order. */
    var finished: seq<Finish>

    constructor (cmd: seq<string>, env: map<string, string>, deviceId: string)
      ensures this.cmd == cmd && this.env == env && this.deviceId == deviceId
      ensures process == NotStarted && outputs == [] && finished == []
    {
      this.cmd := cmd;
      this.env := env;
      this.deviceId := deviceId;
      process := NotStarted;
      outputs := [];
      finished := [];
    }

    /**
     * The part of `run` up to `Popen`: the Portal setup on a device without a flag file, the echo
     * of the command and the start of the CLI. `setup` is how the setup subprocess ended,
     * `flagError` what writing the flag file raised, `popenError` what starting the CLI raised.
     */
    method Launch(
      flags: FlagFiles, cliPath: string, apkPath: string,
      setup: SetupOutcome, flagError: Option<string>, popenError: Option<string>)
      returns (launched: bool)
      modifies this, flags
      ensures var r := LaunchSpec(FlagFile(deviceId) in old(flags.present), cliPath, apkPath, deviceId, old(cmd),
                                  setup, flagError, popenError);
        && outputs == old(outputs) + r.outputs
        && finished == old(finished) + (if r.finish.Some? then [r.finish.value] else [])
        && flags.present == old(flags.present) + (if r.writesFlag then {FlagFile(deviceId)} else {})
        && cmd == r.command
        && launched == r.argv.Some?
        && process == (if r.argv.Some? then Running(r.argv.value) else old(process))
    {
      var flagPresent := FlagFile(deviceId) in flags.present;
      ghost var start := StartSpec(cliPath, cmd, popenError);
      if !flagPresent {
        var installed := InstallPortal(flags, cliPath, apkPath, setup, flagError);
        if !installed {
          return false;
        }
      }
      ghost var beforeStart := outputs;
      launched := StartCli(cliPath, popenError);
      assert outputs == beforeStart + start.outputs;
    }

    /** The Portal setup on a device without a flag file: the notice, the setup's output, and the flag. */
    method InstallPortal(flags: FlagFiles, cliPath: string, apkPath: string, setup: SetupOutcome, flagError: Option<string>)
      returns (installed: bool)
      modifies this, flags
      ensures installed == SetupFailure(setup, flagError).None?
      ensures outputs == old(outputs) + [InstallNotice(cliPath, apkPath, deviceId)] + SetupOutputs(setup, flagError)
      ensures finished == old(finished) + (if installed then [] else [SetupFailure(setup, flagError).value])
      ensures flags.present == old(flags.present) + (if installed then {FlagFile(deviceId)} else {})
      ensures cmd == old(cmd) && process == old(process)
    {
      outputs := outputs + [InstallNotice(cliPath, apkPath, deviceId)];
      match setup {
        case SetupRaised(e) =>
          outputs := outputs + ["Portal 安装错误: " + e];
          finished := finished + [Finish(false, e, 0)];
          return false;
        case SetupExited(rc, out, err) =>
          outputs := outputs + [out + "\n" + err];
          if rc != 0 {
            finished := finished + [Finish(false, "Portal APK 安装失败", 0)];
            return false;
          }
          if flagError.Some? {
            outputs := outputs + ["Portal 安装错误: " + flagError.value];
            finished := finished + [Finish(false, flagError.value, 0)];
            return false;
          }
          flags.present := flags.present + {FlagFile(deviceId)};
          return true;
      }
    }

    /** The echo of the command, the replacement of a leading "droidrun", and `Popen`. */
    method StartCli(cliPath: string, popenError: Option<string>) returns (launched: bool)
      modifies this
      ensures var r := StartSpec(cliPath, old(cmd), popenError);
        && outputs == old(outputs) + r.outputs
        && finished == old(finished) + (if r.finish.Some? then [r.finish.value] else [])
        && cmd == r.command
        && launched == r.argv.Some?
        && process == (if r.argv.Some? then Running(r.argv.value) else old(process))
    {
      outputs := outputs + ["执行命令: " + Join(cmd, " ")];
      if cmd == [] {
        outputs := outputs + ["错误: " + EmptyCommandError];
        finished := finished + [Finish(false, EmptyCommandError, 0)];
        return false;
      }
      if cmd[0] == "droidrun" {
        cmd := [cliPath] + cmd[1..];
      }
      if popenError.Some? {
        outputs := outputs + ["错误: " + popenError.value];
        finished := finished + [Finish(false, popenError.value, 0)];
        return false;
      }
      process := Running(cmd);
      return true;
    }

    /** The rest of `run`: the CLI's output is emitted and the run finishes, successful on exit code 0. */
    method Communicate(stdout: string, stderr: string, returncode: int)
      requires process.Running? || process.Terminated?
      modifies this
      ensures outputs == old(outputs) + [stdout + "\n" + stderr]
      ensures finished == old(finished) + [Finish(returncode == 0, "CLI执行完成", 0)]
      ensures process == Exited(returncode)
      ensures cmd == old(cmd)
    {
      outputs := outputs + [stdout + "\n" + stderr];
      process := Exited(returncode);
      finished := finished + [Finish(returncode == 0, "CLI执行完成", 0)];
    }

    /** `run` without an interruption: exactly one finish is reported. */
    method Run(
      flags: FlagFiles, cliPath: string, apkPath: string,
      setup: SetupOutcome, flagError: Option<string>, popenError: Option<string>,
      stdout: string, stderr: string, returncode: int)
      modifies this, flags
      ensures var r := LaunchSpec(FlagFile(deviceId) in old(flags.present), cliPath, apkPath, deviceId, old(cmd),
                                  setup, flagError, popenError);
        && finished == old(finished) + [RunFinish(r, returncode)]
        && outputs == old(outputs) + r.outputs + (if r.argv.Some? then [stdout + "\n" + stderr] else [])
        && flags.present == old(flags.present) + (if r.writesFlag then {FlagFile(deviceId)} else {})
        && process == (if r.argv.Some? then Exited(returncode) else old(process))
    {
      var launched := Launch(flags, cliPath, apkPath, setup, flagError, popenError);
      if launched {
        Communicate(stdout, stderr, returncode);
      }
    }

    /**
     * `stop`: once a process was started and `poll()` reports it still alive (`alive`, the answer of
     * the operating system), it is terminated and the interruption announced, again on every call
     * until it dies. A reaped process answers `poll()` with its exit code, so once `communicate`
     * has returned, stopping does nothing whatever `alive` says.
     */
    method Stop(alive: bool)
      modifies this
      ensures (old(process).Running? || old(process).Terminated?) && alive ==>
        && outputs == old(outputs) + [InterruptNotice]
        && process == Terminated(old(process).argv)
      ensures old(process).NotStarted? || old(process).Exited? || !alive ==>
        process == old(process) && outputs == old(outputs)
      ensures finished == old(finished) && cmd == old(cmd)
    {
      if (process.Running? || process.Terminated?) && alive {
        if process.Running? {
          process := Terminated(process.argv);
        }
        outputs := outputs + [InterruptNotice];
      }
    }
  }

  class TaskExecutor {
    const apiKeys: APIKeyManager
    /** The worker of the last task started (`self.worker`); each start replaces it. */
    var worker: TaskWorker?

    constructor (savedKeys: Option<map<string, string>>)
      ensures fresh(apiKeys) && apiKeys.keys == savedKeys.GetOr(map[])
      ensures worker == null
    {
      apiKeys := new APIKeyManager(savedKeys);
      worker := null;
    }

    /**
     * `start_task`: a new worker for the command, with the provider's stored key in its
     * environment. `ambient` is the GUI process's environment. Starting the thread is not modelled.
     */
    method StartTask(task: string, modelName: string, deviceId: string, ambient: map<string, string>, steps: int := DefaultSteps)
      modifies this
      ensures worker != null && fresh(worker)
      ensures var (provider, model) := LlmProvider(modelName);
        && worker.cmd == BuildCommand(task, deviceId, provider, model, steps)
        && worker.env == BuildEnv(ambient, provider, apiKeys.GetKey(provider))
      ensures worker.deviceId == deviceId && worker.process == NotStarted
      ensures worker.outputs == [] && worker.finished == []
    {
      var (provider, model) := LlmProvider(modelName);
      var apiKey := apiKeys.GetKey(provider);
      var env := BuildEnv(ambient, provider, apiKey);
      var cmd := BuildCommand(task, deviceId, provider, model, steps);
      worker := new TaskWorker(cmd, env, deviceId);
    }
  }
}
