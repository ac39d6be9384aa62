# Audio converter: encode policy and conversion runner

This project models the core of a desktop audio converter that drives ffmpeg. It has three parts.

- **The encode-policy engine** (`quality_presets.py`):
  - the probe-result cache;
  - the lossy bit-rate matching (the MP3 bit-rate ladder, the Vorbis quality table, the AAC and Opus clamps);
  - the stream-copy eligibility test;
  - the ffmpeg argument builder, which emits the soxr resampling prefix, then the codec and sample-format options, and returns the container extension.
- **The conversion runner** (`main.py`, `ConvertWorker.run`). It walks the task list in order and checks the stop flag before each task. It either stream-copies a file or transcodes it with `-progress pipe:1`, turning the `out_time_ms=` and `progress=end` lines into clamped percentages. It reports one `file_done` per completed task and a final `all_done`.
- **The task-list construction** (`main.py`, `MainWindow.build_tasks`). It derives the output folder, the shared params dict and one output path per input file.

The modules follow that structure. The model files are:

| file | contents |
|---|---|
| `base.dfy` | `Option` |
| `text.dfy` | the Python string and path builtins the code relies on (`lower`, `strip`, `startswith`, `in`, `split("=")[1]`, `str(int)`, `os.path.splitext`, `Path.name`, `Path / name`), over ASCII and POSIX paths |
| `probe.dfy` | the ffprobe JSON as a value, and the `MetadataCache` class |
| `quality_presets.dfy` | the policy engine, as pure functions over the probe result, plus two methods that read through a cache object |
| `runner.dfy` | the runner: specification functions for one task and for the whole loop, the `ConvertWorker` class whose methods are proved against them, and lemmas about the signal traces |
| `task_builder.dfy` | `build_tasks` |

The models take these things as parameters:

- what ffprobe reports for a path;
- the runner's own duration probe;
- the file size (`stat`, with None when it raises);
- what each launched ffmpeg writes and how it exits;
- what `float()` makes of a text;
- the working directory;
- the first stop-flag check that sees the flag set.

Stop-flag checks are numbered across the whole run: one before each task and one before each stdout line read. The flag is never cleared, so every later check sees it too.

## Model

| member | source | states |
|---|---|---|
| Probe.FirstStream | quality_presets.py:47-52 | None exactly when the probe has no streams, otherwise the first stream |
| Probe.FormatDuration | quality_presets.py:54-60 | 0.0 when the format or its duration is missing or is text `float()` rejects, otherwise the parsed duration |
| Probe.Remember | quality_presets.py:26-30 | after `get_or_probe(path)` the cache holds the old keys plus `path`, `path` maps to the looked-up result, and every old entry is unchanged |
| Probe.MetadataCache.constructor | quality_presets.py:23-24 | a new cache is empty and has probed nothing |
| Probe.MetadataCache.GetOrProbe | quality_presets.py:26-30 | a cached path returns its stored result without probing; an uncached one is probed exactly once, stored and returned; afterwards every cached path has been probed exactly once since the last clear |
| Probe.MetadataCache.GetStreamInfo | quality_presets.py:47-52 | the first stream of the cached probe result (`{}` as None), probing at most once |
| Probe.MetadataCache.GetDuration | quality_presets.py:54-60 | the format duration of the cached probe result, 0.0 when missing or unparseable, probing at most once |
| Probe.MetadataCache.Clear | quality_presets.py:62-64 | the cache is empty and the probe log restarts |
| Probe.ProbeTwice | quality_presets.py:26-30 | two requests for one path both return what the cache held for it, or the probe of it; the path is probed once when it was not cached and not at all when it was |
| Text.Lower | quality_presets.py:142 | same length, each character lower-cased (ASCII) |
| Text.LowerAppend | quality_presets.py:208 | lower-casing distributes over concatenation |
| Text.Strip | main.py:298 | the result is an infix of the text with only white space removed around it, and it neither starts nor ends with white space; a text that neither starts nor ends with white space is unchanged |
| Text.ContainsIffOccurs | quality_presets.py:248 | the `t in s` test holds exactly when `t` occurs at some position of `s` |
| Text.SecondField | main.py:301 | None (Python's IndexError) exactly when there is no `=`; otherwise the text between the first `=` and the next one or the end |
| Text.IntToDecimal | quality_presets.py:287 | `str(n)`: non-empty, digits for `n >= 0`, a leading `-` otherwise |
| Text.DecimalRoundTrip | quality_presets.py:287 | reading back the digits written for `n >= 0` gives `n` |
| Text.SplitExt | quality_presets.py:208 | stem and extension concatenate back to the path; the extension is empty or a `.` followed by neither `.` nor `/`, and it is non-empty exactly when the last component has a `.` after some character other than `.` (so a leading-dot name such as `.bashrc` has no extension) |
| Text.SplitExtAppend | main.py:548 | appending an extension to a path whose last component holds a character other than `.` makes that extension exactly what `splitext` finds |
| Text.Basename | main.py:547 | `Path(p).name` holds no `/`, and is non-empty when `p` holds a character other than `/` |
| Text.BasenameIsLastComponent | main.py:547 | `Path(p).name` is the suffix of `p`, with its trailing `/`s trimmed, that follows the last `/` (or all of it when there is none) |
| Text.JoinPath | main.py:549 | `str(Path(root) / name)` is `name` under an empty root; otherwise the root with its trailing `/`s trimmed, one `/`, then `name` (just `/name` under a root of only `/`s) |
| Text.JoinPathLastComponent | main.py:549 | a name with no `/` is the last component of `Path(root) / name` |
| QualityPresets.ExtensionsAreExtensions | quality_presets.py:89-97 | every container extension is a lower-case `.` plus a name without `.` or `/` |
| QualityPresets.FormatIsLossy | quality_presets.py:99-100 | the codec of each lossy target (mp3, aac, opus, vorbis) counts as lossy, and no codec a lossless target (wav, flac, alac) copies does |
| QualityPresets.SrcBitrateKbps | quality_presets.py:106-119 | the source bit rate is never negative |
| QualityPresets.SrcBitrateKbpsBrackets | quality_presets.py:106-119 | the reported bit rate in whole kbit/s when positive; else size*8/duration in whole kbit/s when the duration is positive and the size known; else 0 |
| QualityPresets.FirstAtLeastIsLeast | quality_presets.py:123-127 | on an ascending ladder the first entry at or above `k` is the least such entry, and none means every entry is below `k` |
| QualityPresets.StepsUpAscending | quality_presets.py:121 | a ladder that rises between neighbours rises throughout |
| QualityPresets.Mp3CeilOnLadder | quality_presets.py:121-127 | the rounded rate is a ladder rate: the least one at or above `kbps` up to 320, and 320 above it |
| QualityPresets.RoundUpMp3Cbr | quality_presets.py:123-127 | the ladder walk returns the least ladder rate at or above `kbps`, or 320 past the top, always a ladder member |
| QualityPresets.KbpsToVorbisQ | quality_presets.py:129-137 | the quality is always in 5..10 |
| QualityPresets.VorbisQCountsBreakpoints | quality_presets.py:129-137 | the quality is 5 plus the number of breakpoints (180, 210, 250, 300, 420) reached |
| QualityPresets.VorbisQMonotone | quality_presets.py:129-137 | a higher bit rate never gives a lower quality |
| QualityPresets.VorbisQSwitchPoints | quality_presets.py:129-137 | the quality rises by exactly one at each breakpoint and nowhere else |
| QualityPresets.MatchPolicyForLossy | quality_presets.py:139-164 | no match for a source codec outside the eight lossy ones, or for a target other than mp3/aac/opus/vorbis |
| QualityPresets.MatchPolicyMp3 | quality_presets.py:139-152 | for a lossy source the mp3 match is the least ladder rate in [96,320] at or above the source's rate, and 320 for a source above 320 kbit/s |
| QualityPresets.MatchPolicyBounds | quality_presets.py:139-164 | for a lossy source, aac and opus get the source's rate clamped to [96,320] and [96,256]; vorbis gets the table quality in 5..10 |
| QualityPresets.CanStreamCopy | quality_presets.py:186-233 | copy exactly when a stream is present, a custom request keeps its sample rate and channels, the key is known, the lower-cased output extension is the key's, and the source codec is one the key accepts; KeyError exactly when the stream and shape tests pass but the key is unknown |
| QualityPresets.CopyWhenSourceMatches | quality_presets.py:186-233 | a source that already is what the target asks for, with no resample or remix requested, is copied |
| QualityPresets.ResampleRequestPreventsCopy | quality_presets.py:197-205 | in custom mode, a sample rate or channel count other than 0 or the source's own forbids copying |
| QualityPresets.SoxrFilter | quality_presets.py:235-239 | the soxr filter pair when enabled, nothing otherwise |
| QualityPresets.ResampleArgs | quality_presets.py:276-289 | the soxr pair first when `use_soxr` (default on in both modes), then `-ar` exactly when the sample rate is positive, then `-ac` exactly when the channel count is positive |
| QualityPresets.WavCodecForSource | quality_presets.py:262-270 | `pcm_f32le` exactly for a float sample format, `pcm_s32le` exactly for a non-float one containing s32, `pcm_s24le` otherwise |
| QualityPresets.FormatSampleOptsLossless | quality_presets.py:241-260 | flac gets s32 for a wide source (s32/s24/float) and s16 otherwise; alac gets s32p/s16p by the same test; other keys get nothing |
| QualityPresets.CodecBranch | quality_presets.py:291-361 | each known key's branch returns that key's container extension and some codec arguments |
| QualityPresets.BuildCodecArgs | quality_presets.py:272-363 | for a known key the resampling prefix comes first and the key's extension is returned; an unknown key gives exactly `-c:a copy` with `.out` and no resampling |
| QualityPresets.CodecPart | quality_presets.py:272-363 | what follows the resampling prefix is the key's branch |
| QualityPresets.Mp3Args | quality_presets.py:306-320 | mp3 uses LAME with `-q:a` exactly when custom mode asks for a VBR quality in 0..9 (default 0), and a `-b:a` bit rate otherwise |
| QualityPresets.AacArgs | quality_presets.py:322-333 | aac always gets a `-b:a` bit rate and then the MP4 metadata-tags flag |
| QualityPresets.OpusArgs | quality_presets.py:335-345 | opus always gets a `-b:a` bit rate and then VBR, compression level 10 and the audio application |
| QualityPresets.VorbisArgs | quality_presets.py:347-361 | vorbis gets a `-q:a` quality, except in custom mode with a quality outside 0..10 (default 7), which falls back to a `-b:a` bit rate |
| QualityPresets.WavCodecArgs | quality_presets.py:291-293 | wav's codec arguments are the PCM sub-format chosen from the sample format |
| QualityPresets.FlacCodecArgs | quality_presets.py:295-298 | flac always carries `-compression_level 8`, then s32 or s16 by width |
| QualityPresets.AlacCodecArgs | quality_presets.py:300-304 | alac gets s32p or s16p by width and always ends with `-movflags use_metadata_tags` |
| QualityPresets.MaxModeLosslessMp3 | quality_presets.py:308-312 | max mode and a non-lossy source: mp3 at 320k |
| QualityPresets.MaxModeLosslessAac | quality_presets.py:324-333 | max mode and a non-lossy source: aac at 320k, then the metadata atoms flag |
| QualityPresets.MaxModeLosslessOpus | quality_presets.py:337-341 | max mode and a non-lossy source: opus at 510k with VBR, level 10, audio application |
| QualityPresets.MaxModeLosslessVorbis | quality_presets.py:349-353 | max mode and a non-lossy source: vorbis at `-q:a 10` |
| QualityPresets.MaxModeLossyMp3 | quality_presets.py:306-312 | max mode and a lossy source: mp3 at a ladder rate in [96,320], the least at or above the source's, and 320 for a source above 320 kbit/s |
| QualityPresets.MaxModeLossyAac | quality_presets.py:322-333 | max mode and a lossy source: aac at the source's rate clamped to [96,320] |
| QualityPresets.MaxModeLossyOpus | quality_presets.py:335-341 | max mode and a lossy source: opus at the source's rate clamped to [96,256] |
| QualityPresets.MaxModeLossyVorbis | quality_presets.py:347-353 | max mode and a lossy source: vorbis at the table quality for the source's rate |
| QualityPresets.CustomModeMp3 | quality_presets.py:313-319 | outside max mode, mp3 uses `-q:a vbr_q` exactly when 0 <= vbr_q <= 9 (default 0), else `-b:a` with the bit rate (default 320) |
| QualityPresets.CustomModeAac | quality_presets.py:327-333 | outside max mode, aac uses the bit rate (default 256), then the metadata atoms flag |
| QualityPresets.CustomModeOpus | quality_presets.py:340-344 | outside max mode, opus uses the bit rate (default 192) |
| QualityPresets.CustomModeVorbis | quality_presets.py:352-360 | outside max mode, vorbis uses `-q:a` exactly when 0 <= vbr_q <= 10 (default 7), else the bit rate (default 256) |
| QualityPresets.CanStreamCopyCached | quality_presets.py:186-195 | reading the stream through a cache gives the pure answer for the looked-up probe, and the cache remembers the path |
| QualityPresets.BuildCodecArgsCached | quality_presets.py:272-363 | reading through a cache gives the pure plan for the looked-up probe; an unknown key leaves the cache untouched |
| QualityPresets.SupportsCover | quality_presets.py:365-367 | a format takes a cover exactly when its container is `.mp3`, `.m4a` or `.flac` |
| Runner.StopStaysSeen | main.py:233 | once a stop check sees the flag, every later check does |
| Runner.ClampDuration | main.py:246-247 | the progress denominator is at least 0.001, and is the probed duration when that is at least 0.001 |
| Runner.ClampPercent | main.py:304 | the percentage is in [0,100], and equal to the raw value inside that range |
| Runner.ProgressFromLine | main.py:298-309 | any percentage a line reports is in [0,100] |
| Runner.ProgressLineCases | main.py:298-309 | `progress=end` reports 100; a line that neither starts with `out_time_ms` nor is the end marker reports nothing; an `out_time_ms` line reports its microseconds over the duration as a clamped percentage, provided it has a `=` and `float()` accepts the field, and nothing otherwise |
| Runner.LineEvents | main.py:298-309 | a line raises at most progress signals for its own task, in [0,100] |
| Runner.PumpFrom | main.py:294-309 | the stdout loop reports only in-range progress for its task; it ends killed exactly when a stop check saw the flag, having made one check per line read |
| Runner.PumpStep | main.py:294-309 | a line read without the stop flag reports its percentage and then the loop goes on |
| Runner.PumpStops | main.py:295-297 | seeing the stop flag ends the loop with nothing more reported |
| Runner.CoverArgs | main.py:257-260 | mp3 re-encodes the cover to JPEG with ID3v2.3 and ID3v1 tags; other codecs copy it as an attached picture |
| Runner.CopyCommand | main.py:251-262 | the copy command is the fixed prefix with `-c:a copy`, then the metadata, chapter and cover maps exactly when copy_meta holds, and the output path last |
| Runner.TranscodeBase | main.py:274-286 | the transcode base adds the metadata and chapter maps exactly when copy_meta holds, and the cover map exactly when copy_meta holds and the codec supports covers |
| Runner.CopyMapsCoverWithoutSupportCheck | main.py:255-260 | the copy command maps a cover even for wav, opus and vorbis, where the transcode base does not |
| Runner.ProgressCommand | main.py:289 | the progress command is the base, then `-progress pipe:1`, then the codec arguments unchanged, then the output path |
| Runner.CopyDecision | main.py:250 | with smart copy off the copy branch is never taken |
| Runner.CopyBranch | main.py:250-267 | the copy branch either lets an exception escape with no signal, or reports exactly one `file_done` for its task; it makes no stop check |
| Runner.PolicyPlan | main.py:270 | with the policy engine, the codec arguments are build_codec_args on the cached probe result |
| Runner.TranscodeRun | main.py:291-316 | the transcode always ends with one `file_done` for its task after in-range progress; being killed means a stop check saw the flag |
| Runner.TranscodeBranch | main.py:269-316 | the transcode branch never lets an exception escape and completes its task |
| Runner.TaskSpec | main.py:236-316 | one task either crashes silently (KeyError, or an exception in the copy branch) or emits in-range progress followed by exactly one `file_done` with its index |
| Runner.TaskCompletion | main.py:250-316 | the `file_done` message and success flag per branch: "copiado sin recodificar" or stripped stderr for a copy; launch error, read error, "ok" or stripped stderr for a transcode; success exactly on exit code 0 (the killed process's code when killed); the command launched is the copy command or the progress command |
| Runner.TaskSteps | main.py:232-316 | the loop body runs each task as TaskSpec says |
| Runner.TaskStepsBehave | main.py:232-316 | a loop body that runs the tasks as TaskSpec says has TaskSpec's guarantees for every task |
| Runner.RunStep | main.py:232-316 | a task that starts contributes its signals and commands first, then the rest of the run, unless it crashed, which ends the run |
| Runner.StopBeforeTask | main.py:232-234 | when the check before a task sees the stop flag, no further task starts and only `all_done` follows |
| Runner.TaskEventsIndexed | main.py:294-316 | a task's signals hold exactly one `file_done`, and all carry the task's index |
| Runner.RunHalts | main.py:232-318 | the run halts at a task index between its start and the end, before the end unless it finished |
| Runner.RunIndexed | main.py:232-318 | every progress and `file_done` signal carries the index of the task in hand: tasks run in list order and each `file_done` names the next one |
| Runner.RunDoneCount | main.py:232-318 | exactly one `file_done` per task that completed before the run halted |
| Runner.RunEndsWithAllDone | main.py:232-318 | `all_done` comes once, as the last signal, unless an exception escaped, and then never; every percentage is in [0,100] |
| Runner.KilledTaskIsLast | main.py:294-297 | a task whose ffmpeg the stop flag killed still reports its `file_done`, and the run then goes straight to `all_done` |
| Runner.ConvertWorker.constructor | main.py:221-226 | a new worker holds its tasks, has emitted and launched nothing, and has read the stop flag zero times |
| Runner.ConvertWorker.PollStop | main.py:233 | reading the flag is the next numbered stop check and changes nothing else |
| Runner.ConvertWorker.ReportLine | main.py:298-309 | handling one line appends exactly that line's signals |
| Runner.ConvertWorker.Pump | main.py:294-309 | the stdout loop appends PumpFrom's signals and makes its stop checks |
| Runner.ConvertWorker.RunCopy | main.py:250-267 | the copy branch launches the copy command and appends CopyBranch's signals |
| Runner.ConvertWorker.FollowTranscode | main.py:291-316 | following the launched ffmpeg appends TranscodeRun's signals |
| Runner.ConvertWorker.RunTranscode | main.py:269-316 | the transcode branch launches the progress command, updates the cache and appends TranscodeBranch's signals |
| Runner.ConvertWorker.RunTask | main.py:236-316 | one pass of the loop body does what the specification step says to signals, commands, cache and stop checks |
| Runner.ConvertWorker.Run | main.py:231-318 | the whole run does what RunFrom says from the first task |
| Runner.Convert | main.py:231-318 | a run on a fresh worker is the task loop over TaskSpec with the policy engine; its signals are indexed in task order, hold one `file_done` per completed task, keep percentages in [0,100] and end with `all_done` unless an exception escaped |
| TaskBuilder.DisplayNamesHaveKeys | quality_presets.py:69-97 | every selector entry has a format key, and every format key has an extension and a selector entry |
| TaskBuilder.KeyHasExtension | main.py:546 | the key of a selector entry always indexes the extension table |
| TaskBuilder.OutRoot | main.py:521-523 | the output folder is the stripped text of the output line, or `<cwd>/output` when that is empty |
| TaskBuilder.ParamsFor | main.py:526-539 | custom params carry every setting as chosen; max params carry only mode and copy_meta, so the soxr filter is on, nothing is resampled or remixed, and no requested rate or layout prevents a copy |
| TaskBuilder.OutputFor | main.py:546-549 | the output path lies directly inside the output folder and is named the input's stem plus the key's extension |
| TaskBuilder.TaskFor | main.py:550-556 | each task reads its file, carries the selected key, the shared params and smart-copy switch, and writes to OutputFor's path |
| TaskBuilder.OutputHasTargetExtension | main.py:546-549 | an output path built for a file whose name holds a character other than `.` always passes can_stream_copy's extension test |
| TaskBuilder.ExtensionAfterStem | main.py:546-549 | a lower-case extension after a stem with no `/` and some character other than `.`, under a directory prefix, is exactly the extension `splitext` finds in the lower-cased path |
| TaskBuilder.BuiltTaskCopyDecision | main.py:543-556 | a built task never makes can_stream_copy raise; when its file name holds a character other than `.`, it is copied exactly when the stream is present, keeps the requested shape and has a codec the target accepts |
| TaskBuilder.TasksFor | main.py:543-556 | the loop appends one task per file, in order, each as TaskFor builds it |
| TaskBuilder.BuildTasks | main.py:517-557 | KeyError exactly for a selector entry without a key; otherwise one task per file in order, all with the selected key (one the extension table knows), the same params and smart-copy switch, in the output folder OutRoot derives |

## Left out

- Locating ffmpeg and ffprobe (`find_ffmpeg`, `find_ffprobe`) is a filesystem and PATH query, so the model takes the ffmpeg path as given.
- Running ffprobe and parsing its JSON (`_probe_all`, `probe_audio_meta`, `duration_seconds`, the unused `_probe`) are not modelled. Their results are parameters. A probe whose ffprobe exits non-zero or prints invalid JSON is the empty result, and a missing or unparseable duration is 0.0. An ffprobe that cannot be launched at all is not modelled: `subprocess.run` in `_probe_all` (quality_presets.py:39) is outside the `try`, so that exception escapes `get_or_probe`.
- Launching, reading, killing and waiting on ffmpeg (`subprocess.run`, `Popen`) is modelled as a per-task oracle. For each launch it gives the lines, an optional read exception, the exit code (one for a normal exit and one for a kill), and stderr.
- Exceptions that the model does not raise: from `mkdir` in `run` and `build_tasks`, from the runner's duration probe, from `proc.wait()`, and from reading stderr. The same holds for an ffprobe that cannot be launched. Its exception escapes `can_stream_copy` (main.py:250) and `build_codec_args` (main.py:270), both outside the transcode branch's `try`, so in the source it ends the run with no `file_done` for that task and no `all_done`, like the copy-branch exceptions under Notes. Creating folders is left out altogether.
- `DownloadWorker`, the Qt window, its widgets and dialogs, and the progress-bar arithmetic are outside the modelled core.
- Threading is reduced to the stop flag. `ConvertWorker.stop` is not a method here: when it takes effect is given as the first stop check that sees the flag, so the flag is read, never raced.
- Floating point is modelled as `real`. NaN and infinities are left out, both from `float()` and in the percentage arithmetic. So is the rounding of `secs / dur * 100`.
- String handling is ASCII only. `lower()` and `strip()` follow Python's Unicode tables in the source; the model folds only A-Z and strips only the ASCII white space (space, tab, line feed, vertical tab, form feed, carriage return and U+001C to U+001F). Paths are POSIX, with `/` as the only separator, and `pathlib`'s normalisation of `.` and repeated separators is left out.
- `int()` of a probe field that is not a number (which raises in the source) is left out: numeric probe fields are integers or absent.
- A stream entry that is an empty dict `{}` is treated like any other present stream. The source's `if not info` would also reject it.
- The unused `cmd` and `last_time` values in `run` are not modelled.
- Runner.ConvertWorker.RunTask: the source calls `can_stream_copy` and `build_codec_args`, which read the process-wide cache themselves. The worker here reads the cache object and passes the result to the engine functions. The two methods in `quality_presets.dfy` that read through a cache show that this is the same.
- Runner.ConvertWorker.Run: proved for any loop-body function `step` that runs the tasks as TaskSpec says. `Convert` instantiates it with the policy engine.

## Notes on the source

- Only the transcode branch catches an exception from launching or reading ffmpeg, and reports it as a failed `file_done`. In the copy branch, an exception from `subprocess.run` escapes `run`. So does a KeyError that `can_stream_copy` raises for an unknown key. Either one ends the run with no `file_done` for that task and no `all_done`. The model follows the code (`Halt.Crashed`).
- The copy branch maps the cover stream without consulting `supports_cover`, unlike the transcode branch (Runner.CopyMapsCoverWithoutSupportCheck).
- `use_soxr` defaults to on in both modes, so max-mode transcodes always carry the soxr filter (TaskBuilder.ParamsFor).
