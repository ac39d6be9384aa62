/**
 * The task list the main window hands to the conversion worker
 * (main.py, MainWindow.build_tasks): one task per listed file, all with the
 * selected target format, the same quality parameters and the same
 * smart-copy switch, each writing `<stem><ext>` into the output folder.
 *
 * The widgets are read into a `Selections` value and the working directory
 * is a parameter; creating the output folder is not modelled.
 */
module TaskBuilder {
  import opened Base
  import opened Text
  import opened Probe
  import opened QualityPresets
  import Runner

  /** SUPPORTED_FORMATS_DISPLAY: the entries of the format selector. */
  const SUPPORTED_FORMATS_DISPLAY: seq<string> := [
    "WAV (PCM)", "FLAC (sin pérdida)", "ALAC m4a (sin pérdida)", "MP3 (LAME)",
    "AAC m4a", "Opus", "Ogg Vorbis"]

  /** DISPLAY_TO_KEY: the format key behind each selector entry. */
  const DISPLAY_TO_KEY: map<string, string> := map[
    "WAV (PCM)" := "wav", "FLAC (sin pérdida)" := "flac", "ALAC m4a (sin pérdida)" := "alac",
    "MP3 (LAME)" := "mp3", "AAC m4a" := "aac", "Opus" := "opus", "Ogg Vorbis" := "vorbis"]

  /** The quality selector's custom entry starts with this text. */
  const CUSTOM_MODE_PREFIX: string := "Personalizada"

  /** Every selector entry has a key, and every key has a container extension. */
  lemma DisplayNamesHaveKeys()
    ensures forall d :: d in SUPPORTED_FORMATS_DISPLAY ==> d in DISPLAY_TO_KEY
    ensures forall d :: d in DISPLAY_TO_KEY ==> d in SUPPORTED_FORMATS_DISPLAY
    ensures forall d :: d in DISPLAY_TO_KEY ==> DISPLAY_TO_KEY[d] in EXT_FOR_FORMAT
    ensures forall k :: k in EXT_FOR_FORMAT ==> exists d :: d in DISPLAY_TO_KEY && DISPLAY_TO_KEY[d] == k
  {
    assert DISPLAY_TO_KEY["WAV (PCM)"] == "wav" && DISPLAY_TO_KEY["FLAC (sin pérdida)"] == "flac";
    assert DISPLAY_TO_KEY["ALAC m4a (sin pérdida)"] == "alac" && DISPLAY_TO_KEY["MP3 (LAME)"] == "mp3";
    assert DISPLAY_TO_KEY["AAC m4a"] == "aac" && DISPLAY_TO_KEY["Opus"] == "opus";
    assert DISPLAY_TO_KEY["Ogg Vorbis"] == "vorbis";
  }

  /** The key of a selector entry always indexes the extension table. */
  lemma KeyHasExtension(d: string)
    requires d in DISPLAY_TO_KEY
    ensures DISPLAY_TO_KEY[d] in EXT_FOR_FORMAT
  {
    DisplayNamesHaveKeys();
  }

  /** What build_tasks reads from the window: the selectors, the output line, the spin boxes and the check boxes. */
  datatype Selections = Selections(
    formatDisplay: string,
    outDirText: string,
    qualityModeText: string,
    bitrateK: int,
    vbrQ: int,
    samplerate: int,
    channels: int,
    useSoxr: bool,
    copyMeta: bool,
    smartCopy: bool)

  /** The output folder: the stripped text of the output line, or `<cwd>/output` when that is empty. */
  function OutRoot(outDirText: string, cwd: string): (root: string)
    ensures Strip(outDirText) != [] ==> root == Strip(outDirText)
    ensures Strip(outDirText) == [] ==> root == JoinPath(cwd, "output")
  {
    var text := Strip(outDirText);
    if text == [] then JoinPath(cwd, "output") else text
  }

  /**
   * The params dict, as the engine sees it: under the custom quality entry,
   * every setting as chosen; otherwise mode "max" and copy_meta only, which
   * leaves everything else to the defaults, so the soxr filter is on, there
   * is no resample or remix, and stream copy is never ruled out by a
   * requested rate or layout.
   */
  function ParamsFor(sel: Selections): (p: QualityParams)
    ensures p.CopyMeta() == sel.copyMeta
    ensures p.IsCustom() <==> StartsWith(sel.qualityModeText, CUSTOM_MODE_PREFIX)
    ensures p.IsCustom() ==>
      && p.Mode() == "custom" && p.bitrateK == Some(sel.bitrateK) && p.vbrQ == Some(sel.vbrQ)
      && p.Samplerate() == sel.samplerate && p.Channels() == sel.channels && p.UseSoxr() == sel.useSoxr
    ensures !p.IsCustom() ==>
      && p.Mode() == "max" && p.bitrateK.None? && p.vbrQ.None?
      && ResampleArgs(p) == ["-af", SOXR_FILTER]
      && forall info :: KeepsStreamShape(p, info)
  {
    if StartsWith(sel.qualityModeText, CUSTOM_MODE_PREFIX) then
      QualityParams(Some("custom"), Some(sel.bitrateK), Some(sel.vbrQ), Some(sel.samplerate),
                    Some(sel.channels), Some(sel.useSoxr), Some(sel.copyMeta))
    else
      var p := QualityParams(Some("max"), None, None, None, None, None, Some(sel.copyMeta));
      assert p.UseSoxr() && p.Samplerate() == 0 && p.Channels() == 0;
      p
  }

  /** `str(Path(out_root) / (os.path.splitext(Path(in_f).name)[0] + ext))` */
  function OutputFor(outRoot: string, input: string, key: string): (out: string)
    requires key in EXT_FOR_FORMAT
    ensures StartsWith(out, DirPrefix(outRoot))
    ensures '/' !in out[|DirPrefix(outRoot)|..]
    ensures out[|DirPrefix(outRoot)|..] == SplitExt(Basename(input)).0 + EXT_FOR_FORMAT[key]
  {
    var name := SplitExt(Basename(input)).0 + EXT_FOR_FORMAT[key];
    ExtensionsAreExtensions(key);
    StemHasNoSlash(Basename(input));
    var out := JoinPath(outRoot, name);
    assert out[|DirPrefix(outRoot)|..] == name;
    out
  }

  /** The stem `splitext` leaves of a slash-free name is slash-free. */
  lemma StemHasNoSlash(b: string)
    requires '/' !in b
    ensures '/' !in SplitExt(b).0
  {
    var r := SplitExt(b);
    assert r.0 == b[..|r.0|];
  }

  /** `splitext` of a slash-free name holding a character other than '.' leaves a stem that still holds one. */
  lemma StemKeepsNonDot(b: string)
    requires '/' !in b
    requires HasNonDot(b)
    ensures HasNonDot(SplitExt(b).0)
  {
    assert NameStart(b) == 0 by {
      if NameStart(b) > 0 {
        assert false;
      }
    }
    match LastIndexOf(b, '.')
    case None =>
    case Some(dot) =>
      if exists k :: 0 <= k < dot && b[k] != '.' {
        var k :| 0 <= k < dot && b[k] != '.';
        assert SplitExt(b).0 == b[..dot];
        assert b[..dot][k] != '.';
      }
  }

  /** Lower-casing keeps '/' and '.' where they are. */
  lemma LowerKeepsSeparators(s: string)
    ensures ('/' in Lower(s)) <==> ('/' in s)
    ensures HasNonDot(s) ==> HasNonDot(Lower(s))
    ensures |s| > 0 && s[|s| - 1] == '/' ==> Lower(s)[|s| - 1] == '/'
  {
    if HasNonDot(s) {
      var k :| 0 <= k < |s| && s[k] != '.';
      assert Lower(s)[k] != '.';
    }
    if '/' in Lower(s) {
      var k :| 0 <= k < |s| && Lower(s)[k] == '/';
      assert s[k] == '/';
    }
    if '/' in s {
      var k :| 0 <= k < |s| && s[k] == '/';
      assert Lower(s)[k] == '/';
    }
  }

  /**
   * The output path of a file whose name holds a character other than '.'
   * has, lower-cased, exactly the target's container extension: the
   * extension test of can_stream_copy always passes for it.
   */
  lemma OutputHasTargetExtension(outRoot: string, input: string, key: string)
    requires key in EXT_FOR_FORMAT
    requires HasNonDot(Basename(input))
    ensures OutputExtension(OutputFor(outRoot, input, key)) == EXT_FOR_FORMAT[key]
  {
    var stem := SplitExt(Basename(input)).0;
    StemHasNoSlash(Basename(input));
    StemKeepsNonDot(Basename(input));
    ExtensionsAreExtensions(key);
    assert OutputFor(outRoot, input, key) == JoinPath(outRoot, stem + EXT_FOR_FORMAT[key]);
    ExtensionAfterStem(DirPrefix(outRoot), stem, EXT_FOR_FORMAT[key]);
  }

  /**
   * A lower-case extension appended to a stem with no '/' and some
   * character other than '.', under a directory prefix, is exactly the
   * extension `splitext` finds in the lower-cased path.
   */
  lemma ExtensionAfterStem(d: string, stem: string, e: string)
    requires d == [] || d[|d| - 1] == '/'
    requires '/' !in stem && HasNonDot(stem)
    requires IsExtension(e) && Lower(e) == e
    ensures SplitExt(Lower(d + (stem + e))).1 == e
  {
    assert d + (stem + e) == (d + stem) + e;
    LowerAppend(d + stem, e);
    LowerAppend(d, stem);
    var ld := Lower(d);
    var ls := Lower(stem);
    LowerKeepsSeparators(d);
    LowerKeepsSeparators(stem);
    NameStartAfterDir(ld, ls);
    assert (ld + ls)[NameStart(ld + ls)..] == ls;
    SplitExtAppend(ld + ls, e);
  }

  /**
   * The task build_tasks appends for input file `input`: it reads that file,
   * carries the selected key, the shared params and the smart-copy switch,
   * and writes the file's stem plus the key's extension inside the output folder.
   */
  function TaskFor(sel: Selections, outRoot: string, key: string, input: string): (t: Runner.Task)
    requires key in EXT_FOR_FORMAT
    ensures t.input == input && t.codec == key && t.params == ParamsFor(sel) && t.SmartCopy() == sel.smartCopy
    ensures t.output == OutputFor(outRoot, input, key)
  {
    Runner.Task(input, OutputFor(outRoot, input, key), key, ParamsFor(sel), Some(sel.smartCopy))
  }

  /**
   * A built task never makes can_stream_copy raise, and when its file name
   * holds a character other than '.', copying depends only on the source
   * stream: it happens exactly when the stream is present, keeps the
   * requested rate and layout, and has a codec the target accepts.
   */
  lemma BuiltTaskCopyDecision(sel: Selections, outRoot: string, key: string, input: string, info: Option<StreamInfo>)
    requires key in EXT_FOR_FORMAT
    requires HasNonDot(Basename(input))
    ensures var t := TaskFor(sel, outRoot, key, input);
      var r := CanStreamCopy(t.output, t.codec, t.params, info);
      && !r.RaisesKeyError?
      && (r == Returns(true) <==>
            info.Some? && KeepsStreamShape(t.params, info.value) && SourceCodec(info.value) in AcceptedSourceCodecs(key))
  {
    OutputHasTargetExtension(outRoot, input, key);
  }

  /**
   * The loop of build_tasks: for each listed file in turn, append the task
   * that writes `<stem><ext>` into `outRoot`.
   */
  method TasksFor(files: seq<string>, sel: Selections, outRoot: string, key: string)
    returns (tasks: seq<Runner.Task>)
    requires key in EXT_FOR_FORMAT
    ensures |tasks| == |files|
    ensures forall i :: 0 <= i < |files| ==> tasks[i] == TaskFor(sel, outRoot, key, files[i])
  {
    var params := ParamsFor(sel);
    var smartCopy := sel.smartCopy;
    tasks := [];
    var i := 0;
    while i < |files|
      invariant 0 <= i <= |files|
      invariant |tasks| == i
      invariant forall j :: 0 <= j < i ==> tasks[j] == TaskFor(sel, outRoot, key, files[j])
    {
      var inF := files[i];
      var ext := EXT_FOR_FORMAT[key];
      var rel := Basename(inF);
      rel := SplitExt(rel).0 + ext;
      var outF := JoinPath(outRoot, rel);
      assert outF == OutputFor(outRoot, inF, key);
      var t := Runner.Task(inF, outF, key, params, Some(smartCopy));
      assert t == TaskFor(sel, outRoot, key, inF);
      tasks := tasks + [t];
      i := i + 1;
    }
  }

  /** build_tasks' result: the task list and the output folder. */
  datatype Built = Built(tasks: seq<Runner.Task>, outRoot: string)

  /**
   * build_tasks: a KeyError for a format entry without a key (before
   * anything else happens); otherwise one task per file, in the list's
   * order, into the output folder, all with the selected key, the same
   * params and the same smart-copy switch.
   */
  method BuildTasks(files: seq<string>, sel: Selections, cwd: string) returns (r: Outcome<Built>)
    ensures r.RaisesKeyError? <==> sel.formatDisplay !in DISPLAY_TO_KEY
    ensures r.RaisesKeyError? ==> r.key == sel.formatDisplay
    ensures r.Returns? ==>
      && DISPLAY_TO_KEY[sel.formatDisplay] in EXT_FOR_FORMAT
      && r.value.outRoot == OutRoot(sel.outDirText, cwd)
      && |r.value.tasks| == |files|
      && forall i :: 0 <= i < |files| ==>
           r.value.tasks[i] == TaskFor(sel, r.value.outRoot, DISPLAY_TO_KEY[sel.formatDisplay], files[i])
  {
    if sel.formatDisplay !in DISPLAY_TO_KEY {
      return RaisesKeyError(sel.formatDisplay);
    }
    var key := DISPLAY_TO_KEY[sel.formatDisplay];
    KeyHasExtension(sel.formatDisplay);
    var outRoot := Strip(sel.outDirText);
    if outRoot == [] {
      outRoot := JoinPath(cwd, "output");
    }
    var tasks := TasksFor(files, sel, outRoot, key);
    return Returns(Built(tasks, outRoot));
  }
}
