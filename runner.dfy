/**
 * The conversion runner (main.py, ConvertWorker.run): walk the task list in
 * order, check the stop flag before each task, stream-copy when allowed,
 * otherwise transcode with `-progress pipe:1` and turn the progress lines
 * into percentages, and report one `file_done` per completed task and a final
 * `all_done`.
 *
 * Everything outside the process is a parameter (`Environment`): the ffmpeg
 * path, the prober behind the metadata cache, the runner's own duration
 * probe, the file-size lookup, what each launched ffmpeg does, what
 * `float()` makes of a text, and when the stop flag is first seen set.
 */
module Runner {
  import opened Base
  import opened Text
  import opened Probe
  import opened QualityPresets

  // ---------------------------------------------------------------------
  // Tasks, signals and the outside world
  // ---------------------------------------------------------------------

  /** One task dict; `smart_copy` may be absent. */
  datatype Task = Task(input: string, output: string, codec: string, params: QualityParams, smartCopy: Option<bool>)
  {
    /** `task.get("smart_copy", True)` */
    function SmartCopy(): bool { smartCopy.GetOr(true) }
  }

  /** The worker's signals, in emission order: progress_file, file_done and all_done. */
  datatype Event =
    | Progress(index: nat, percent: real)
    | FileDone(index: nat, ok: bool, message: string)
    | AllDone

  /**
   * What one ffmpeg launch does: the launch raises (with the exception
   * text), or the process writes `lines` on stdout, possibly followed by an
   * exception while reading them, and ends with `exitCode` (or
   * `killedExitCode` when the runner kills it) having written `stderr`.
   */
  datatype ProcessRun =
    | LaunchFails(error: string)
    | Launched(lines: seq<string>, readError: Option<string>, exitCode: int, killedExitCode: int, stderr: string)

  /**
   * The runner's surroundings. `stopAt` is the number of the first stop-flag
   * check that sees the flag set (None: never); the flag is never cleared,
   * so every later check sees it too.
   */
  datatype Environment = Environment(
    ffmpeg: string,
    prober: string -> ProbeResult,
    duration: string -> real,
    fileSize: string -> Option<nat>,
    process: (nat, seq<string>) -> ProcessRun,
    parseFloat: string -> Option<real>,
    stopAt: Option<nat>)

  /**
   * The two policy-engine entry points the worker calls: whether a task may
   * be stream-copied (can_stream_copy, given the output path, the codec key,
   * the parameters and the probed stream) and the codec arguments of a
   * transcode (build_codec_args, given the codec key, the parameters, the
   * probe result and the file size). The worker uses `POLICY`; the
   * properties of the run's signal traces hold for any engine.
   */
  datatype Engine = Engine(
    canCopy: (string, string, QualityParams, Option<StreamInfo>) -> Outcome<bool>,
    plan: (string, QualityParams, ProbeResult, Option<nat>) -> EncodePlan)

  /** The engine of quality_presets.py. */
  const POLICY: Engine := Engine(CanStreamCopy, BuildCodecArgs)

  /** Check number `check` (counted from 0) of the stop flag sees it set. */
  predicate StopSeen(stopAt: Option<nat>, check: nat) {
    stopAt.Some? && stopAt.value <= check
  }

  /** Once a check has seen the stop flag, every later check sees it as well. */
  lemma StopStaysSeen(stopAt: Option<nat>, c: nat, d: nat)
    requires StopSeen(stopAt, c) && c <= d
    ensures StopSeen(stopAt, d)
  {
  }

  // ---------------------------------------------------------------------
  // Progress lines
  // ---------------------------------------------------------------------

  /** `max(dur, 0.001)`: the denominator of the progress percentage. */
  function ClampDuration(d: real): (r: real)
    ensures r >= 0.001
    ensures d >= 0.001 ==> r == d
    ensures d < 0.001 ==> r == 0.001
  {
    if d > 0.001 then d else 0.001
  }

  /** `min(100, max(0, x))` */
  function ClampPercent(x: real): (r: real)
    ensures 0.0 <= r <= 100.0
    ensures 0.0 <= x <= 100.0 ==> r == x
    ensures x < 0.0 ==> r == 0.0
    ensures x > 100.0 ==> r == 100.0
  {
    var atLeast := if x > 0.0 then x else 0.0;
    if atLeast < 100.0 then atLeast else 100.0
  }

  /**
   * The percentage one stdout line reports, if any: `out_time_ms=<µs>`
   * gives the elapsed time over the duration, clamped to [0,100]; the line
   * `progress=end` gives 100; anything else, a line without '=' and a value
   * `float()` rejects give nothing.
   */
  function ProgressFromLine(line: string, dur: real, parseFloat: string -> Option<real>): (pct: Option<real>)
    requires dur > 0.0
    ensures pct.Some? ==> 0.0 <= pct.value <= 100.0
  {
    var l := Strip(line);
    if StartsWith(l, "out_time_ms") then
      match SecondField(l, '=')
      case None => None
      case Some(field) =>
        match parseFloat(field)
        case None => None
        case Some(micro) =>
          var secs := micro / 1000000.0;
          Some(ClampPercent(secs / dur * 100.0))
    else if l == "progress=end" then Some(100.0)
    else None
  }

  /**
   * Which lines report what: the end marker reports 100; a line that is
   * neither the end marker nor starts with `out_time_ms` reports nothing;
   * an `out_time_ms` line reports its value in microseconds over the
   * duration, as a clamped percentage, provided it has a '=' and `float()`
   * accepts the text after it, and nothing otherwise.
   */
  lemma ProgressLineCases(line: string, dur: real, parseFloat: string -> Option<real>)
    requires dur > 0.0
    ensures var pct := ProgressFromLine(line, dur, parseFloat);
      && (Strip(line) == "progress=end" ==> pct == Some(100.0))
      && (!StartsWith(Strip(line), "out_time_ms") && Strip(line) != "progress=end" ==> pct.None?)
      && (StartsWith(Strip(line), "out_time_ms") ==>
            match SecondField(Strip(line), '=')
            case None => pct.None?
            case Some(field) =>
              match parseFloat(field)
              case None => pct.None?
              case Some(micro) => pct == Some(ClampPercent(micro / 1000000.0 / dur * 100.0)))
  {
    EndLineIsNotTime();
  }

  /** The end marker is not a time report. */
  lemma EndLineIsNotTime()
    ensures !StartsWith("progress=end", "out_time_ms")
  {
    assert "progress=end"[..11][0] != "out_time_ms"[0];
  }

  /** The signal one stdout line of task `idx` raises: its percentage, if it reports one. */
  function LineEvents(idx: nat, line: string, dur: real, parseFloat: string -> Option<real>): (evs: seq<Event>)
    requires dur > 0.0
    ensures forall e :: e in evs ==> e.Progress? && e.index == idx && 0.0 <= e.percent <= 100.0
  {
    match ProgressFromLine(line, dur, parseFloat)
    case None => []
    case Some(pct) => [Progress(idx, pct)]
  }

  /** What reading the stdout lines from position `i` on produces. */
  datatype PumpResult = PumpResult(events: seq<Event>, checks: nat, killed: bool)

  /**
   * The stdout loop of the transcode branch from line `i` on, starting at
   * stop check number `checks`: before each line the stop flag is checked
   * and, when set, the process is killed and reading ends; otherwise the
   * line's percentage, if any, is reported for task `idx`.
   */
  function PumpFrom(idx: nat, lines: seq<string>, i: nat, dur: real, env: Environment, checks: nat)
    : (r: PumpResult)
    requires i <= |lines| && dur > 0.0
    ensures forall e :: e in r.events ==> e.Progress? && e.index == idx && 0.0 <= e.percent <= 100.0
    ensures checks <= r.checks <= checks + |lines| - i
    ensures r.killed ==> checks < r.checks && StopSeen(env.stopAt, r.checks - 1)
    ensures !r.killed ==> r.checks == checks + |lines| - i && (i < |lines| ==> !StopSeen(env.stopAt, r.checks - 1))
    decreases |lines| - i
  {
    if i == |lines| then PumpResult([], checks, false)
    else if StopSeen(env.stopAt, checks) then PumpResult([], checks + 1, true)
    else
      var rest := PumpFrom(idx, lines, i + 1, dur, env, checks + 1);
      PumpResult(LineEvents(idx, lines[i], dur, env.parseFloat) + rest.events, rest.checks, rest.killed)
  }

  /**
   * What is left to read, `rest`, together with what has been emitted
   * since `start`, makes up the whole stdout loop `whole`.
   */
  ghost predicate PumpRest(rest: PumpResult, start: seq<Event>, emitted: seq<Event>, whole: PumpResult) {
    && emitted + rest.events == start + whole.events
    && rest.checks == whole.checks && rest.killed == whole.killed
  }

  /** Reading line `i` when the stop flag is not seen: its percentage, then the rest. */
  lemma PumpStep(idx: nat, lines: seq<string>, i: nat, dur: real, env: Environment, checks: nat)
    requires i < |lines| && dur > 0.0 && !StopSeen(env.stopAt, checks)
    ensures var rest := PumpFrom(idx, lines, i + 1, dur, env, checks + 1);
      PumpFrom(idx, lines, i, dur, env, checks)
      == PumpResult(LineEvents(idx, lines[i], dur, env.parseFloat) + rest.events, rest.checks, rest.killed)
  {
  }

  /** Seeing the stop flag ends the loop with nothing more reported. */
  lemma PumpStops(idx: nat, lines: seq<string>, i: nat, dur: real, env: Environment, checks: nat)
    requires i < |lines| && dur > 0.0 && StopSeen(env.stopAt, checks)
    ensures PumpFrom(idx, lines, i, dur, env, checks) == PumpResult([], checks + 1, true)
  {
  }

  // ---------------------------------------------------------------------
  // ffmpeg command lines
  // ---------------------------------------------------------------------

  const COPY_DONE: string := "copiado sin recodificar"
  const META_ARGS: seq<string> := ["-map_metadata", "0", "-map_chapters", "0"]
  const COVER_MAP: seq<string> := ["-map", "0:v:0?"]

  /** How the cover stream is written: re-encoded to JPEG with ID3v2.3 tags for mp3, copied otherwise. */
  function CoverArgs(codec: string): (args: seq<string>)
    ensures codec == "mp3" ==> args == ["-c:v", "mjpeg", "-id3v2_version", "3", "-write_id3v1", "1", "-disposition:v", "attached_pic"]
    ensures codec != "mp3" ==> args == ["-c:v", "copy", "-disposition:v", "attached_pic"]
  {
    if codec == "mp3" then ["-c:v", "mjpeg", "-id3v2_version", "3", "-write_id3v1", "1", "-disposition:v", "attached_pic"]
    else ["-c:v", "copy", "-disposition:v", "attached_pic"]
  }

  /** The fixed start of both command lines: overwrite, quiet, no stdin, first audio stream of the input. */
  function CommandStart(ffmpeg: string, input: string): seq<string> {
    [ffmpeg, "-y", "-hide_banner", "-nostdin", "-i", input, "-map", "0:a:0"]
  }

  /**
   * The stream-copy command of the copy branch: the fixed start with
   * `-c:a copy`, then, exactly when metadata is kept, the metadata and
   * chapter maps and the cover map (for every codec, whether or not its
   * container carries a cover), and the output path last.
   */
  function CopyCommand(ffmpeg: string, task: Task): (cmd: seq<string>)
    ensures |cmd| == if task.params.CopyMeta() then 17 + |CoverArgs(task.codec)| else 11
    ensures cmd[..10] == [ffmpeg, "-y", "-hide_banner", "-nostdin", "-i", task.input, "-map", "0:a:0", "-c:a", "copy"]
    ensures cmd[|cmd| - 1] == task.output
    ensures task.params.CopyMeta() ==>
      && cmd[10..14] == META_ARGS && cmd[14..16] == COVER_MAP
      && cmd[16..|cmd| - 1] == CoverArgs(task.codec)
  {
    var s := CommandStart(ffmpeg, task.input) + ["-c:a", "copy"];
    if task.params.CopyMeta() then
      var cmd := s + META_ARGS + COVER_MAP + CoverArgs(task.codec) + [task.output];
      assert cmd[10..14] == META_ARGS;
      assert cmd[14..16] == COVER_MAP;
      assert cmd[16..|cmd| - 1] == CoverArgs(task.codec);
      cmd
    else
      s + [task.output]
  }

  /**
   * `cmd_base` of the transcode branch: the fixed start, then the metadata
   * and chapter maps exactly when metadata is kept, then the cover map and
   * cover codec exactly when metadata is kept and the target container
   * carries a cover.
   */
  function TranscodeBase(ffmpeg: string, task: Task): (base: seq<string>)
    ensures var meta := task.params.CopyMeta();
      var cover := meta && SupportsCover(task.codec);
      && |base| == 8 + (if meta then 4 else 0) + (if cover then 2 + |CoverArgs(task.codec)| else 0)
      && base[..8] == CommandStart(ffmpeg, task.input)
      && (meta ==> base[8..12] == META_ARGS)
      && (cover ==> base[12..14] == COVER_MAP && base[14..] == CoverArgs(task.codec))
  {
    var start := CommandStart(ffmpeg, task.input);
    if task.params.CopyMeta() && SupportsCover(task.codec) then
      var base := start + META_ARGS + COVER_MAP + CoverArgs(task.codec);
      assert base[8..12] == META_ARGS;
      assert base[12..14] == COVER_MAP;
      assert base[14..] == CoverArgs(task.codec);
      base
    else if task.params.CopyMeta() then
      start + META_ARGS
    else
      start
  }

  /**
   * `cmd_progress`: the transcode base, then `-progress pipe:1`, then the
   * codec arguments unchanged, then the output path.
   */
  function ProgressCommand(ffmpeg: string, task: Task, codecArgs: seq<string>): (cmd: seq<string>)
    ensures var base := TranscodeBase(ffmpeg, task);
      && |cmd| == |base| + 2 + |codecArgs| + 1
      && cmd[..|base|] == base
      && cmd[|base|..|base| + 2] == ["-progress", "pipe:1"]
      && cmd[|base| + 2..|cmd| - 1] == codecArgs
      && cmd[|cmd| - 1] == task.output
  {
    var base := TranscodeBase(ffmpeg, task);
    var cmd := base + ["-progress", "pipe:1"] + codecArgs + [task.output];
    assert cmd[|base|..|base| + 2] == ["-progress", "pipe:1"];
    assert cmd[|base| + 2..|cmd| - 1] == codecArgs;
    cmd
  }

  /**
   * The copy branch maps a cover even for a container without one (wav,
   * opus, vorbis), while the transcode branch for the same task does not.
   */
  lemma CopyMapsCoverWithoutSupportCheck(ffmpeg: string, task: Task)
    requires task.params.CopyMeta() && !SupportsCover(task.codec)
    ensures CopyCommand(ffmpeg, task)[14..16] == COVER_MAP
    ensures TranscodeBase(ffmpeg, task) == CommandStart(ffmpeg, task.input) + META_ARGS
  {
  }

  // ---------------------------------------------------------------------
  // One task
  // ---------------------------------------------------------------------

  /**
   * Whether the task takes the copy branch: never when smart copy is off
   * (the cache is then not consulted); otherwise what can_stream_copy says
   * about the cached stream info, KeyError included.
   */
  function CopyDecision(task: Task, env: Environment, engine: Engine, entries: map<string, ProbeResult>): (d: Outcome<bool>)
    ensures !task.SmartCopy() ==> d == Returns(false)
  {
    if task.SmartCopy() then
      engine.canCopy(task.output, task.codec, task.params, FirstStream(Lookup(entries, env.prober, task.input)))
    else Returns(false)
  }

  /**
   * One task: the signals it emits, the cache entries afterwards, the
   * commands it hands to the process runner, the stop checks made so far,
   * whether an exception escaped `run` (a KeyError from can_stream_copy, or
   * the copy branch's `subprocess.run` raising), and whether the stop flag
   * killed its ffmpeg.
   */
  datatype TaskOutcome = TaskOutcome(
    events: seq<Event>,
    entries: map<string, ProbeResult>,
    commands: seq<seq<string>>,
    checks: nat,
    crashed: bool,
    killed: bool)

  /** A task's signals: progress for task `idx` with percentages in [0,100], then exactly one `file_done`, last. */
  ghost predicate CompletesTask(events: seq<Event>, idx: nat) {
    && |events| > 0
    && events[|events| - 1].FileDone? && events[|events| - 1].index == idx
    && forall k :: 0 <= k < |events| - 1 ==>
         events[k].Progress? && events[k].index == idx && 0.0 <= events[k].percent <= 100.0
  }

  /**
   * The copy branch with the cache at `entries`: run the copy command; an
   * exception from the launch or from reading its output escapes `run`;
   * otherwise one `file_done`, successful exactly on exit code 0.
   */
  function CopyBranch(idx: nat, task: Task, env: Environment, entries: map<string, ProbeResult>, checks: nat)
    : (t: TaskOutcome)
    ensures t.crashed ==> t.events == []
    ensures !t.crashed ==> CompletesTask(t.events, idx)
    ensures !t.killed && t.checks == checks && t.entries == entries
  {
    var cmd := CopyCommand(env.ffmpeg, task);
    var run := env.process(idx, cmd);
    if run.LaunchFails? || run.readError.Some? then
      TaskOutcome([], entries, [cmd], checks, true, false)
    else
      var ok := run.exitCode == 0;
      TaskOutcome([FileDone(idx, ok, if ok then COPY_DONE else Strip(run.stderr))], entries, [cmd], checks, false, false)
  }

  /**
   * The probe result build_codec_args reads for the task: the cached one
   * (probing first when it is not cached) for a known codec key; for an
   * unknown key it reads none, and the empty result stands in.
   */
  function PlanInput(task: Task, env: Environment, entries: map<string, ProbeResult>): ProbeResult {
    if task.codec in EXT_FOR_FORMAT then Lookup(entries, env.prober, task.input) else PROBE_FAILED
  }

  /** With the policy engine, the plan is build_codec_args on the cached probe result, whatever the key. */
  lemma PolicyPlan(task: Task, env: Environment, entries: map<string, ProbeResult>)
    ensures POLICY.plan(task.codec, task.params, PlanInput(task, env, entries), env.fileSize(task.input))
         == BuildCodecArgs(task.codec, task.params, Lookup(entries, env.prober, task.input), env.fileSize(task.input))
  {
  }

  /** The progress command of the transcode branch, its codec arguments built from the cache at `entries`. */
  function TranscodeCommand(task: Task, env: Environment, engine: Engine, entries: map<string, ProbeResult>): seq<string> {
    ProgressCommand(env.ffmpeg, task, engine.plan(task.codec, task.params, PlanInput(task, env, entries), env.fileSize(task.input)).args)
  }

  /**
   * What the transcode branch of task `idx` reports once ffmpeg is launched
   * (or fails to launch) as `run`: a launch exception is reported as a
   * failure; otherwise progress while reading stdout from stop check
   * `checks` on (killing ffmpeg when the stop flag is seen), then one
   * `file_done`: the read exception as a failure, or success exactly on
   * exit code 0 (the killed process's code when killed).
   */
  function TranscodeRun(idx: nat, run: ProcessRun, dur: real, env: Environment, checks: nat): (r: PumpResult)
    requires dur > 0.0
    ensures CompletesTask(r.events, idx)
    ensures r.killed ==> run.Launched? && checks < r.checks && StopSeen(env.stopAt, r.checks - 1)
    ensures checks <= r.checks
  {
    match run
    case LaunchFails(error) => PumpResult([FileDone(idx, false, error)], checks, false)
    case Launched(lines, readError, exitCode, killedExitCode, stderr) =>
      var p := PumpFrom(idx, lines, 0, dur, env, checks);
      var done :=
        if !p.killed && readError.Some? then FileDone(idx, false, readError.value)
        else
          var code := if p.killed then killedExitCode else exitCode;
          FileDone(idx, code == 0, if code == 0 then "ok" else Strip(stderr));
      assert (p.events + [done])[..|p.events|] == p.events;
      PumpResult(p.events + [done], p.checks, p.killed)
  }

  /**
   * The transcode branch with the cache at `entries`: build the codec
   * arguments (probing through the cache for a known codec key), launch
   * ffmpeg with progress on stdout and report as TranscodeRun says; a
   * launch or read exception never escapes.
   */
  function TranscodeBranch(idx: nat, task: Task, env: Environment, engine: Engine, entries: map<string, ProbeResult>, checks: nat)
    : (t: TaskOutcome)
    ensures !t.crashed && CompletesTask(t.events, idx)
    ensures t.killed ==> checks < t.checks && StopSeen(env.stopAt, t.checks - 1)
    ensures checks <= t.checks
  {
    var after := if task.codec in EXT_FOR_FORMAT then Remember(entries, env.prober, task.input) else entries;
    var cmd := TranscodeCommand(task, env, engine, entries);
    var r := TranscodeRun(idx, env.process(idx, cmd), ClampDuration(env.duration(task.input)), env, checks);
    TaskOutcome(r.events, after, [cmd], r.checks, false, r.killed)
  }

  /**
   * The body of the task loop for task `idx`, after the stop check: the
   * copy decision (reading the cache when smart copy is on), then one of
   * the two branches. A KeyError from the decision escapes `run`.
   */
  function TaskSpec(idx: nat, task: Task, env: Environment, engine: Engine, entries: map<string, ProbeResult>, checks: nat)
    : (t: TaskOutcome)
    ensures t.crashed ==> t.events == [] && !t.killed
    ensures !t.crashed ==> CompletesTask(t.events, idx)
    ensures t.killed ==> checks < t.checks && StopSeen(env.stopAt, t.checks - 1)
    ensures checks <= t.checks
  {
    var checked := if task.SmartCopy() then Remember(entries, env.prober, task.input) else entries;
    var decision := CopyDecision(task, env, engine, entries);
    if decision.RaisesKeyError? then TaskOutcome([], checked, [], checks, true, false)
    else if decision.value then CopyBranch(idx, task, env, checked, checks)
    else TranscodeBranch(idx, task, env, engine, checked, checks)
  }

  /**
   * The `file_done` message: "copiado sin recodificar" or the stripped
   * stderr for a copy; the launch exception's text, the read exception's
   * text, "ok" on exit 0, or the stripped stderr for a transcode; success
   * exactly when ffmpeg exited with 0.
   */
  lemma TaskCompletion(idx: nat, task: Task, env: Environment, engine: Engine, entries: map<string, ProbeResult>, checks: nat)
    requires !TaskSpec(idx, task, env, engine, entries, checks).crashed
    ensures var t := TaskSpec(idx, task, env, engine, entries, checks);
      var done := t.events[|t.events| - 1];
      var decision := CopyDecision(task, env, engine, entries);
      && decision.Returns?
      && |t.commands| == 1
      && (decision.value ==>
            && t.commands[0] == CopyCommand(env.ffmpeg, task)
            && var run := env.process(idx, t.commands[0]);
               && run.Launched? && run.readError.None?
               && t.events == [FileDone(idx, run.exitCode == 0, if run.exitCode == 0 then COPY_DONE else Strip(run.stderr))])
      && (!decision.value ==>
            && t.commands[0] == TranscodeCommand(task, env, engine, entries)
            && var run := env.process(idx, t.commands[0]);
               && (run.LaunchFails? ==> t.events == [FileDone(idx, false, run.error)])
               && (run.Launched? && !t.killed && run.readError.Some? ==> done == FileDone(idx, false, run.readError.value))
               && (run.Launched? && !t.killed && run.readError.None? ==>
                     done == FileDone(idx, run.exitCode == 0, if run.exitCode == 0 then "ok" else Strip(run.stderr)))
               && (t.killed ==> run.Launched? && done.ok == (run.killedExitCode == 0)))
  {
    var checked := if task.SmartCopy() then Remember(entries, env.prober, task.input) else entries;
    assert Lookup(checked, env.prober, task.input) == Lookup(entries, env.prober, task.input);
  }

  // ---------------------------------------------------------------------
  // The whole run
  // ---------------------------------------------------------------------

  /**
   * The body of the task loop as a function: task `i`'s outcome, given the
   * cache entries and the number of stop checks made before it.
   */
  type TaskStep = (nat, map<string, ProbeResult>, nat) -> TaskOutcome

  /** What the body of the task loop guarantees for task `idx` started after `checks` stop checks. */
  ghost predicate Behaves(t: TaskOutcome, idx: nat, checks: nat, stopAt: Option<nat>) {
    && (t.crashed ==> t.events == [] && !t.killed)
    && (!t.crashed ==> CompletesTask(t.events, idx))
    && (t.killed ==> checks < t.checks && StopSeen(stopAt, t.checks - 1))
    && checks <= t.checks
  }

  ghost predicate StepsBehave(step: TaskStep, count: nat, stopAt: Option<nat>) {
    forall i, e, c :: 0 <= i < count ==> Behaves(step(i, e, c), i, c, stopAt)
  }

  /** `step` runs each of `tasks` as TaskSpec says. */
  ghost predicate RunsTasks(step: TaskStep, tasks: seq<Task>, env: Environment, engine: Engine) {
    forall i, e, c {:trigger TaskSpec(i, tasks[i], env, engine, e, c)} ::
      0 <= i < |tasks| ==> step(i, e, c) == TaskSpec(i, tasks[i], env, engine, e, c)
  }

  /** The task loop of `tasks` with `engine`: TaskSpec for every task (an index past the end crashes). */
  function TaskSteps(tasks: seq<Task>, env: Environment, engine: Engine): (step: TaskStep)
    ensures RunsTasks(step, tasks, env, engine)
  {
    (i: nat, e: map<string, ProbeResult>, c: nat) => if i < |tasks| then TaskSpec(i, tasks[i], env, engine, e, c) else TaskOutcome([], e, [], c, true, false)
  }

  /** A step that runs the tasks as TaskSpec says has TaskSpec's guarantees. */
  lemma TaskStepsBehave(step: TaskStep, tasks: seq<Task>, env: Environment, engine: Engine)
    requires RunsTasks(step, tasks, env, engine)
    ensures StepsBehave(step, |tasks|, env.stopAt)
  {
    forall i, e, c | 0 <= i < |tasks|
      ensures Behaves(step(i, e, c), i, c, env.stopAt)
    {
      var t := TaskSpec(i, tasks[i], env, engine, e, c);
    }
  }

  /** How `run` ends: after the last task, at the stop check before task `next`, or by an exception in task `at`. */
  datatype Halt = Finished | Cancelled(next: nat) | Crashed(at: nat)

  /** The number of tasks that completed (emitted their `file_done`) when the run halts. */
  function Completed(halt: Halt, taskCount: nat): nat {
    match halt
    case Finished => taskCount
    case Cancelled(next) => next
    case Crashed(at) => at
  }

  datatype RunResult = RunResult(
    events: seq<Event>,
    commands: seq<seq<string>>,
    entries: map<string, ProbeResult>,
    checks: nat,
    halt: Halt)

  /**
   * `run` over `count` tasks from task `i` on, with the cache holding
   * `entries` and `checks` stop checks made: stop check, task, next task;
   * `all_done` after the loop, whether it ran out of tasks or saw the stop
   * flag, but not after an escaped exception.
   */
  function RunFrom(count: nat, stopAt: Option<nat>, step: TaskStep, i: nat, entries: map<string, ProbeResult>, checks: nat)
    : RunResult
    requires i <= count
    decreases count - i
  {
    if i == count then RunResult([AllDone], [], entries, checks, Finished)
    else if StopSeen(stopAt, checks) then RunResult([AllDone], [], entries, checks + 1, Cancelled(i))
    else
      var t := step(i, entries, checks + 1);
      if t.crashed then RunResult(t.events, t.commands, t.entries, t.checks, Crashed(i))
      else
        var rest := RunFrom(count, stopAt, step, i + 1, t.entries, t.checks);
        RunResult(t.events + rest.events, t.commands + rest.commands, rest.entries, rest.checks, rest.halt)
  }

  /**
   * What is left of the run, `rest`, together with the signals and
   * commands recorded since the start, makes up the whole run `whole`.
   */
  ghost predicate RunRest(
    rest: RunResult, startEvents: seq<Event>, events: seq<Event>,
    startLaunched: seq<seq<string>>, launched: seq<seq<string>>, whole: RunResult)
  {
    && events + rest.events == startEvents + whole.events
    && launched + rest.commands == startLaunched + whole.commands
    && rest.entries == whole.entries && rest.checks == whole.checks && rest.halt == whole.halt
  }

  /** A task that starts: the run is its outcome, then (unless it crashed) the rest of the run. */
  lemma RunStep(count: nat, stopAt: Option<nat>, step: TaskStep, i: nat, entries: map<string, ProbeResult>, checks: nat)
    requires i < count && !StopSeen(stopAt, checks)
    ensures var t := step(i, entries, checks + 1);
      var r := RunFrom(count, stopAt, step, i, entries, checks);
      && (t.crashed ==> r == RunResult(t.events, t.commands, t.entries, t.checks, Crashed(i)))
      && (!t.crashed ==>
            var rest := RunFrom(count, stopAt, step, i + 1, t.entries, t.checks);
            r == RunResult(t.events + rest.events, t.commands + rest.commands, rest.entries, rest.checks, rest.halt))
  {
  }

  /** After a task that completes, what is left of the run starts at the next task. */
  lemma RunRestAdvance(
    count: nat, stopAt: Option<nat>, step: TaskStep, i: nat, entries: map<string, ProbeResult>, checks: nat,
    startEvents: seq<Event>, events: seq<Event>, startLaunched: seq<seq<string>>, launched: seq<seq<string>>, whole: RunResult)
    requires i < count && !StopSeen(stopAt, checks)
    requires RunRest(RunFrom(count, stopAt, step, i, entries, checks), startEvents, events, startLaunched, launched, whole)
    requires !step(i, entries, checks + 1).crashed
    ensures var t := step(i, entries, checks + 1);
      RunRest(RunFrom(count, stopAt, step, i + 1, t.entries, t.checks),
              startEvents, events + t.events, startLaunched, launched + t.commands, whole)
  {
    var t := step(i, entries, checks + 1);
    var rest := RunFrom(count, stopAt, step, i + 1, t.entries, t.checks);
    RunStep(count, stopAt, step, i, entries, checks);
    AppendAssoc(events, t.events, rest.events);
    AppendAssoc(launched, t.commands, rest.commands);
  }

  /** A task whose exception escapes ends the run with what it recorded. */
  lemma RunRestCrash(
    count: nat, stopAt: Option<nat>, step: TaskStep, i: nat, entries: map<string, ProbeResult>, checks: nat,
    startEvents: seq<Event>, events: seq<Event>, startLaunched: seq<seq<string>>, launched: seq<seq<string>>, whole: RunResult)
    requires i < count && !StopSeen(stopAt, checks)
    requires RunRest(RunFrom(count, stopAt, step, i, entries, checks), startEvents, events, startLaunched, launched, whole)
    requires step(i, entries, checks + 1).crashed
    ensures var t := step(i, entries, checks + 1);
      && events + t.events == startEvents + whole.events && launched + t.commands == startLaunched + whole.commands
      && t.entries == whole.entries && t.checks == whole.checks && whole.halt == Crashed(i)
  {
    RunStep(count, stopAt, step, i, entries, checks);
  }

  /** When the stop flag is seen at the check before task `i`, no task starts and `all_done` is all there is. */
  lemma StopBeforeTask(count: nat, stopAt: Option<nat>, step: TaskStep, i: nat, entries: map<string, ProbeResult>, checks: nat)
    requires i < count && StopSeen(stopAt, checks)
    ensures RunFrom(count, stopAt, step, i, entries, checks) == RunResult([AllDone], [], entries, checks + 1, Cancelled(i))
  {
  }

  // ---------------------------------------------------------------------
  // Well-formed signal traces
  // ---------------------------------------------------------------------

  /** The number of `file_done` signals in `events`. */
  function DoneCount(events: seq<Event>): (n: nat)
    ensures n <= |events|
  {
    if events == [] then 0
    else DoneCount(events[..|events| - 1]) + (if events[|events| - 1].FileDone? then 1 else 0)
  }

  lemma {:induction false} DoneCountAppend(a: seq<Event>, b: seq<Event>)
    ensures DoneCount(a + b) == DoneCount(a) + DoneCount(b)
    decreases |b|
  {
    if b != [] {
      assert (a + b)[..|a + b| - 1] == a + b[..|b| - 1];
      DoneCountAppend(a, b[..|b| - 1]);
    } else {
      assert a + b == a;
    }
  }

  /**
   * Every progress and `file_done` signal carries the index of the task
   * being run: task `first` plus the number of tasks already done. So the
   * `file_done` signals name `first`, `first + 1`, ... in order, once each,
   * and progress is only ever reported for the task in hand.
   */
  ghost predicate IndexedByDone(events: seq<Event>, first: nat) {
    forall p :: 0 <= p < |events| && !events[p].AllDone? ==> events[p].index == first + DoneCount(events[..p])
  }

  /** Every reported percentage lies in [0,100]. */
  ghost predicate PercentsInRange(events: seq<Event>) {
    forall e :: e in events && e.Progress? ==> 0.0 <= e.percent <= 100.0
  }

  lemma IndexedAppend(a: seq<Event>, b: seq<Event>, first: nat)
    requires IndexedByDone(a, first) && IndexedByDone(b, first + DoneCount(a))
    ensures IndexedByDone(a + b, first)
  {
    forall p | 0 <= p < |a + b| && !(a + b)[p].AllDone?
      ensures (a + b)[p].index == first + DoneCount((a + b)[..p])
    {
      if p < |a| {
        assert (a + b)[..p] == a[..p];
      } else {
        assert (a + b)[..p] == a + b[..p - |a|];
        DoneCountAppend(a, b[..p - |a|]);
      }
    }
  }

  lemma AppendAssoc<T>(a: seq<T>, b: seq<T>, c: seq<T>)
    ensures (a + b) + c == a + (b + c)
  {
  }

  /** A task's signals: progress for `idx` and then its one `file_done`. */
  lemma {:induction false} TaskEventsIndexed(events: seq<Event>, idx: nat)
    requires CompletesTask(events, idx)
    ensures IndexedByDone(events, idx) && DoneCount(events) == 1
  {
    forall p | 0 <= p < |events|
      ensures DoneCount(events[..p]) == 0
    {
      ProgressOnlyCount(events[..p], idx);
    }
    assert events[..|events| - 1] == events[..|events| - 1][..|events| - 1];
  }

  lemma {:induction false} ProgressOnlyCount(events: seq<Event>, idx: nat)
    requires forall k :: 0 <= k < |events| ==> events[k].Progress?
    ensures DoneCount(events) == 0
    decreases |events|
  {
    if events != [] {
      ProgressOnlyCount(events[..|events| - 1], idx);
    }
  }

  /** `all_done` alone: indexed from any task, and no task done. */
  lemma OnlyAllDone(first: nat)
    ensures IndexedByDone([AllDone], first) && DoneCount([AllDone]) == 0
  {
    assert [AllDone][..0] == [];
  }

  /** A completed task's signals in front of a run's indexed signals keep them indexed. */
  lemma TaskThenIndexed(taskEvents: seq<Event>, idx: nat, rest: seq<Event>)
    requires CompletesTask(taskEvents, idx) && IndexedByDone(rest, idx + 1)
    ensures IndexedByDone(taskEvents + rest, idx)
  {
    TaskEventsIndexed(taskEvents, idx);
    IndexedAppend(taskEvents, rest, idx);
  }

  /** The run halts at a task index between `i` and the end, before the end unless it finished. */
  lemma {:induction false} RunHalts(count: nat, stopAt: Option<nat>, step: TaskStep, i: nat, entries: map<string, ProbeResult>, checks: nat)
    requires i <= count
    ensures var r := RunFrom(count, stopAt, step, i, entries, checks);
      && i <= Completed(r.halt, count) <= count
      && (!r.halt.Finished? ==> Completed(r.halt, count) < count)
    decreases count - i
  {
    if i < count && !StopSeen(stopAt, checks) {
      RunStep(count, stopAt, step, i, entries, checks);
      var t := step(i, entries, checks + 1);
      if !t.crashed {
        RunHalts(count, stopAt, step, i + 1, t.entries, t.checks);
      }
    }
  }

  /**
   * The signals of a whole run are indexed in task order from `i`: every
   * progress and `file_done` signal names the task in hand.
   */
  lemma {:induction false} RunIndexed(count: nat, stopAt: Option<nat>, step: TaskStep, i: nat, entries: map<string, ProbeResult>, checks: nat)
    requires i <= count && StepsBehave(step, count, stopAt)
    ensures IndexedByDone(RunFrom(count, stopAt, step, i, entries, checks).events, i)
    decreases count - i
  {
    if i == count || StopSeen(stopAt, checks) {
      OnlyAllDone(i);
    } else {
      RunStep(count, stopAt, step, i, entries, checks);
      var t := step(i, entries, checks + 1);
      assert Behaves(t, i, checks + 1, stopAt);
      if !t.crashed {
        RunIndexed(count, stopAt, step, i + 1, t.entries, t.checks);
        TaskThenIndexed(t.events, i, RunFrom(count, stopAt, step, i + 1, t.entries, t.checks).events);
      }
    }
  }

  /** There is one `file_done` per task that completed before the run halted. */
  lemma {:induction false} RunDoneCount(count: nat, stopAt: Option<nat>, step: TaskStep, i: nat, entries: map<string, ProbeResult>, checks: nat)
    requires i <= count && StepsBehave(step, count, stopAt)
    ensures var r := RunFrom(count, stopAt, step, i, entries, checks);
      i + DoneCount(r.events) == Completed(r.halt, count)
    decreases count - i
  {
    if i == count || StopSeen(stopAt, checks) {
      OnlyAllDone(i);
    } else {
      RunStep(count, stopAt, step, i, entries, checks);
      var t := step(i, entries, checks + 1);
      assert Behaves(t, i, checks + 1, stopAt);
      if !t.crashed {
        RunDoneCount(count, stopAt, step, i + 1, t.entries, t.checks);
        TaskEventsIndexed(t.events, i);
        DoneCountAppend(t.events, RunFrom(count, stopAt, step, i + 1, t.entries, t.checks).events);
      }
    }
  }

  /**
   * `all_done` comes exactly once, as the last signal, unless `crashed`,
   * and then it never comes.
   */
  ghost predicate AllDoneLast(events: seq<Event>, crashed: bool) {
    && (crashed <==> AllDone !in events)
    && (!crashed ==> |events| > 0 && events[|events| - 1] == AllDone && AllDone !in events[..|events| - 1])
  }

  /** A completed task's signals in front of a well-ended rest keep it well ended. */
  lemma TaskThenRest(taskEvents: seq<Event>, idx: nat, rest: seq<Event>, crashed: bool)
    requires CompletesTask(taskEvents, idx)
    requires PercentsInRange(rest) && AllDoneLast(rest, crashed)
    ensures PercentsInRange(taskEvents + rest) && AllDoneLast(taskEvents + rest, crashed)
  {
    assert forall k :: 0 <= k < |taskEvents| ==> !taskEvents[k].AllDone?;
    assert forall k :: 0 <= k < |taskEvents| - 1 ==> taskEvents[k].Progress? && 0.0 <= taskEvents[k].percent <= 100.0;
    if !crashed {
      assert (taskEvents + rest)[..|taskEvents + rest| - 1] == taskEvents + rest[..|rest| - 1];
    }
  }

  /**
   * `all_done` comes exactly once, as the last signal, unless an exception
   * escaped, and then it never comes; every percentage is in [0,100].
   */
  lemma {:induction false} RunEndsWithAllDone(count: nat, stopAt: Option<nat>, step: TaskStep, i: nat, entries: map<string, ProbeResult>, checks: nat)
    requires i <= count && StepsBehave(step, count, stopAt)
    ensures var r := RunFrom(count, stopAt, step, i, entries, checks);
      PercentsInRange(r.events) && AllDoneLast(r.events, r.halt.Crashed?)
    decreases count - i
  {
    var r := RunFrom(count, stopAt, step, i, entries, checks);
    if i == count || StopSeen(stopAt, checks) {
      assert r.events == [AllDone];
    } else {
      RunStep(count, stopAt, step, i, entries, checks);
      var t := step(i, entries, checks + 1);
      assert Behaves(t, i, checks + 1, stopAt);
      if !t.crashed {
        var rest := RunFrom(count, stopAt, step, i + 1, t.entries, t.checks);
        RunEndsWithAllDone(count, stopAt, step, i + 1, t.entries, t.checks);
        TaskThenRest(t.events, i, rest.events, rest.halt.Crashed?);
      }
    }
  }

  /**
   * A task whose ffmpeg the stop flag killed still reports its `file_done`,
   * and it is the last task: the run goes straight to `all_done`.
   */
  lemma KilledTaskIsLast(count: nat, stopAt: Option<nat>, step: TaskStep, i: nat, entries: map<string, ProbeResult>, checks: nat)
    requires i < count && !StopSeen(stopAt, checks) && StepsBehave(step, count, stopAt)
    requires step(i, entries, checks + 1).killed
    ensures var t := step(i, entries, checks + 1);
      RunFrom(count, stopAt, step, i, entries, checks)
      == if i + 1 < count then RunResult(t.events + [AllDone], t.commands, t.entries, t.checks + 1, Cancelled(i + 1))
         else RunResult(t.events + [AllDone], t.commands, t.entries, t.checks, Finished)
  {
    var t := step(i, entries, checks + 1);
    assert Behaves(t, i, checks + 1, stopAt);
    RunStep(count, stopAt, step, i, entries, checks);
    if i + 1 < count {
      StopStaysSeen(stopAt, t.checks - 1, t.checks);
      StopBeforeTask(count, stopAt, step, i + 1, t.entries, t.checks);
    }
  }

  // ---------------------------------------------------------------------
  // The worker object
  // ---------------------------------------------------------------------

  /**
   * ConvertWorker: its tasks and surroundings are fixed at construction;
   * `events` records every signal emitted, `launched` every command line
   * handed to the process runner, and `polls` how many times the stop flag
   * has been read. `engine` holds the policy-engine functions it calls.
   */
  class ConvertWorker {
    const tasks: seq<Task>
    const env: Environment
    const engine: Engine
    var events: seq<Event>
    var launched: seq<seq<string>>
    var polls: nat

    constructor (tasks: seq<Task>, env: Environment)
      ensures this.tasks == tasks && this.env == env && engine == POLICY
      ensures events == [] && launched == [] && polls == 0
    {
      this.tasks := tasks;
      this.env := env;
      engine := POLICY;
      events := [];
      launched := [];
      polls := 0;
    }

    /** Read `self._stop`. */
    method PollStop() returns (stop: bool)
      modifies this
      ensures stop == StopSeen(env.stopAt, old(polls)) && polls == old(polls) + 1
      ensures events == old(events) && launched == old(launched)
    {
      stop := StopSeen(env.stopAt, polls);
      polls := polls + 1;
    }

    /** Handle one stdout line of task `idx`: report its percentage, if it gives one. */
    method ReportLine(idx: nat, line: string, dur: real)
      requires dur > 0.0
      modifies this
      ensures events == old(events) + LineEvents(idx, line, dur, env.parseFloat)
      ensures launched == old(launched) && polls == old(polls)
    {
      var pct := ProgressFromLine(line, dur, env.parseFloat);
      if pct.Some? {
        events := events + [Progress(idx, pct.value)];
      }
    }

    /** The stdout loop of the transcode branch for task `idx`. */
    method Pump(idx: nat, lines: seq<string>, dur: real) returns (killed: bool)
      requires dur > 0.0
      modifies this
      ensures var p := PumpFrom(idx, lines, 0, dur, env, old(polls));
        events == old(events) + p.events && polls == p.checks && killed == p.killed
      ensures launched == old(launched)
    {
      ghost var p := PumpFrom(idx, lines, 0, dur, env, polls);
      ghost var start := events;
      var i := 0;
      while i < |lines|
        invariant i <= |lines| && launched == old(launched)
        invariant PumpRest(PumpFrom(idx, lines, i, dur, env, polls), start, events, p)
        decreases |lines| - i
      {
        ghost var before := events;
        ghost var c := polls;
        var stop := PollStop();
        if stop {
          PumpStops(idx, lines, i, dur, env, c);
          return true;
        }
        ReportLine(idx, lines[i], dur);
        PumpStep(idx, lines, i, dur, env, c);
        AppendAssoc(before, LineEvents(idx, lines[i], dur, env.parseFloat), PumpFrom(idx, lines, i + 1, dur, env, polls).events);
        i := i + 1;
      }
      return false;
    }

    /** The copy branch of task `idx`; `crashed` when an exception escapes. */
    method RunCopy(idx: nat, task: Task, ghost entries: map<string, ProbeResult>) returns (crashed: bool)
      modifies this
      ensures var t := CopyBranch(idx, task, env, entries, old(polls));
        && events == old(events) + t.events && launched == old(launched) + t.commands
        && polls == old(polls) && crashed == t.crashed
    {
      var cmd := CopyCommand(env.ffmpeg, task);
      launched := launched + [cmd];
      var run := env.process(idx, cmd);
      if run.LaunchFails? || run.readError.Some? {
        return true;
      }
      var ok := run.exitCode == 0;
      events := events + [FileDone(idx, ok, if ok then COPY_DONE else Strip(run.stderr))];
      return false;
    }

    /** Follow the launched (or failed) ffmpeg `run` of task `idx`'s transcode branch. */
    method FollowTranscode(idx: nat, run: ProcessRun, dur: real) returns (killed: bool)
      requires dur > 0.0
      modifies this
      ensures var r := TranscodeRun(idx, run, dur, env, old(polls));
        events == old(events) + r.events && polls == r.checks && killed == r.killed
      ensures launched == old(launched)
    {
      match run {
        case LaunchFails(error) =>
          events := events + [FileDone(idx, false, error)];
          killed := false;
        case Launched(lines, readError, exitCode, killedExitCode, stderr) =>
          killed := Pump(idx, lines, dur);
          if !killed && readError.Some? {
            events := events + [FileDone(idx, false, readError.value)];
          } else {
            var code := if killed then killedExitCode else exitCode;
            events := events + [FileDone(idx, code == 0, if code == 0 then "ok" else Strip(stderr))];
          }
      }
    }

    /** The transcode branch of task `idx`, reading the probe through `cache`. */
    method RunTranscode(idx: nat, task: Task, cache: MetadataCache)
      requires cache.Valid()
      modifies this, cache
      ensures cache.Valid()
      ensures var t := TranscodeBranch(idx, task, env, engine, old(cache.entries), old(polls));
        && events == old(events) + t.events && launched == old(launched) + t.commands
        && cache.entries == t.entries && polls == t.checks
    {
      var dur := ClampDuration(env.duration(task.input));
      var data := PROBE_FAILED;
      if task.codec in EXT_FOR_FORMAT {
        data := cache.GetOrProbe(env.prober, task.input);
      }
      var plan := engine.plan(task.codec, task.params, data, env.fileSize(task.input));
      var cmd := ProgressCommand(env.ffmpeg, task, plan.args);
      launched := launched + [cmd];
      var killed := FollowTranscode(idx, env.process(idx, cmd), dur);
    }

    /**
     * The body of the task loop for task `idx`, after its stop check, as
     * `step` (which runs the tasks as TaskSpec says) has it; `crashed` when
     * an exception escapes.
     */
    method RunTask(idx: nat, cache: MetadataCache, ghost step: TaskStep) returns (crashed: bool)
      requires idx < |tasks| && cache.Valid() && RunsTasks(step, tasks, env, engine)
      modifies this, cache
      ensures cache.Valid()
      ensures var t := step(idx, old(cache.entries), old(polls));
        && events == old(events) + t.events && launched == old(launched) + t.commands
        && cache.entries == t.entries && polls == t.checks && crashed == t.crashed
    {
      ghost var t := TaskSpec(idx, tasks[idx], env, engine, cache.entries, polls);
      var task := tasks[idx];
      var copy := false;
      if task.SmartCopy() {
        var info := cache.GetStreamInfo(env.prober, task.input);
        var can := engine.canCopy(task.output, task.codec, task.params, info);
        if can.RaisesKeyError? {
          return true;
        }
        copy := can.value;
      }
      if copy {
        crashed := RunCopy(idx, task, cache.entries);
      } else {
        RunTranscode(idx, task, cache);
        crashed := false;
      }
    }

    /**
     * ConvertWorker.run, with `step` the body of its task loop (TaskSpec
     * for each task); the result says how it ended (an escaped exception is
     * `Crashed`).
     */
    method Run(cache: MetadataCache, ghost step: TaskStep) returns (halt: Halt)
      requires cache.Valid() && RunsTasks(step, tasks, env, engine)
      modifies this, cache
      ensures cache.Valid()
      ensures var r := RunFrom(|tasks|, env.stopAt, step, 0, old(cache.entries), old(polls));
        && events == old(events) + r.events && launched == old(launched) + r.commands
        && cache.entries == r.entries && polls == r.checks && halt == r.halt
    {
      ghost var r0 := RunFrom(|tasks|, env.stopAt, step, 0, cache.entries, polls);
      ghost var startEvents := events;
      ghost var startLaunched := launched;
      var idx := 0;
      while idx < |tasks|
        invariant idx <= |tasks| && cache.Valid()
        invariant RunRest(RunFrom(|tasks|, env.stopAt, step, idx, cache.entries, polls), startEvents, events, startLaunched, launched, r0)
        decreases |tasks| - idx
      {
        ghost var before := events;
        ghost var beforeLaunched := launched;
        ghost var e := cache.entries;
        ghost var c := polls;
        var stop := PollStop();
        if stop {
          StopBeforeTask(|tasks|, env.stopAt, step, idx, e, c);
          events := events + [AllDone];
          return Cancelled(idx);
        }
        var crashed := RunTask(idx, cache, step);
        if crashed {
          RunRestCrash(|tasks|, env.stopAt, step, idx, e, c, startEvents, before, startLaunched, beforeLaunched, r0);
          return Crashed(idx);
        }
        RunRestAdvance(|tasks|, env.stopAt, step, idx, e, c, startEvents, before, startLaunched, beforeLaunched, r0);
        idx := idx + 1;
      }
      events := events + [AllDone];
      halt := Finished;
    }
  }

  /**
   * Start a worker on `tasks` and run it with a fresh stop flag: its
   * signals and commands are those of the task loop over TaskSpec with the
   * policy engine, and they are well formed (indexed in task order, one
   * `file_done` per completed task, `all_done` last unless an exception escaped).
   */
  method Convert(tasks: seq<Task>, env: Environment, cache: MetadataCache) returns (worker: ConvertWorker, halt: Halt)
    requires cache.Valid()
    modifies cache
    ensures cache.Valid() && fresh(worker)
    ensures var r := RunFrom(|tasks|, env.stopAt, TaskSteps(tasks, env, POLICY), 0, old(cache.entries), 0);
      && worker.events == r.events && worker.launched == r.commands && cache.entries == r.entries && halt == r.halt
      && IndexedByDone(r.events, 0) && DoneCount(r.events) == Completed(halt, |tasks|)
      && PercentsInRange(r.events) && AllDoneLast(r.events, halt.Crashed?)
  {
    worker := new ConvertWorker(tasks, env);
    ghost var step := TaskSteps(tasks, env, POLICY);
    TaskStepsBehave(step, tasks, env, POLICY);
    RunHalts(|tasks|, env.stopAt, step, 0, cache.entries, 0);
    RunIndexed(|tasks|, env.stopAt, step, 0, cache.entries, 0);
    RunDoneCount(|tasks|, env.stopAt, step, 0, cache.entries, 0);
    RunEndsWithAllDone(|tasks|, env.stopAt, step, 0, cache.entries, 0);
    halt := worker.Run(cache, step);
  }
}
