/**
 * The encode-policy engine (quality_presets.py): stream-copy eligibility and
 * the ffmpeg codec arguments plus container extension for a target format,
 * chosen from the source's first audio stream and the quality parameters.
 *
 * The source reads the probe through a process-wide cache; here the pure
 * functions take the probe result itself, and the `...Cached` methods at the
 * end show that going through a `MetadataCache` object gives the same answer.
 */
module QualityPresets {
  import opened Base
  import opened Text
  import opened Probe

  // ---------------------------------------------------------------------
  // Tables
  // ---------------------------------------------------------------------

  /** EXT_FOR_FORMAT: the container extension of each target format key. */
  const EXT_FOR_FORMAT: map<string, string> := map[
    "wav" := ".wav", "flac" := ".flac", "alac" := ".m4a", "mp3" := ".mp3",
    "aac" := ".m4a", "opus" := ".opus", "vorbis" := ".ogg"]

  /** The codec names `_format_is_lossy` recognises. */
  const LOSSY_CODECS: set<string> := {"mp3", "aac", "opus", "vorbis", "wma", "mp2", "ac3", "eac3"}

  /** _MP3_CBR_SET: the MPEG-1 Layer III bit rates of ISO/IEC 11172-3 (clause 2.4.2.3), in kbit/s. */
  const MP3_CBR_SET: seq<int> := [32, 40, 48, 56, 64, 80, 96, 112, 128, 160, 192, 224, 256, 320]

  /** The kbit/s values at which `_kbps_to_vorbis_q` moves up one quality step (q5 below the first). */
  const VORBIS_BREAKPOINTS: seq<int> := [180, 210, 250, 300, 420]

  /** The soxr resampler filter: high precision, triangular dither. */
  const SOXR_FILTER: string := "aresample=resampler=soxr:precision=33:dither_method=triangular"

  /**
   * _format_is_lossy: the codec of every lossy target counts as lossy, and
   * no codec that a lossless target (wav, flac, alac) copies does.
   */
  predicate FormatIsLossy(codec: string)
    ensures codec in {"mp3", "aac", "opus", "vorbis"} ==> FormatIsLossy(codec)
    ensures FormatIsLossy(codec) ==>
      codec !in AcceptedSourceCodecs("wav") + AcceptedSourceCodecs("flac") + AcceptedSourceCodecs("alac")
  {
    codec in LOSSY_CODECS
  }

  lemma ExtensionsAreExtensions(key: string)
    requires key in EXT_FOR_FORMAT
    ensures IsExtension(EXT_FOR_FORMAT[key]) && Lower(EXT_FOR_FORMAT[key]) == EXT_FOR_FORMAT[key]
  {
  }

  // ---------------------------------------------------------------------
  // Quality parameters: the task's `params` dict and its `.get` defaults
  // ---------------------------------------------------------------------

  /** The `params` dict; a key the dict lacks is None. */
  datatype QualityParams = QualityParams(
    mode: Option<string>,
    bitrateK: Option<int>,
    vbrQ: Option<int>,
    samplerate: Option<int>,
    channels: Option<int>,
    useSoxr: Option<bool>,
    copyMeta: Option<bool>)
  {
    /** `params.get("mode", "max")` */
    function Mode(): string { mode.GetOr("max") }
    /** `params.get("use_soxr", True)`: on unless switched off, in either mode. */
    function UseSoxr(): bool { useSoxr.GetOr(true) }
    /** `params.get("samplerate", 0)` */
    function Samplerate(): int { samplerate.GetOr(0) }
    /** `params.get("channels", 0)` */
    function Channels(): int { channels.GetOr(0) }
    /** `params.get("copy_meta", True)` */
    function CopyMeta(): bool { copyMeta.GetOr(true) }
    /** `params.get("mode") == "custom"` */
    predicate IsCustom() { mode == Some("custom") }
  }

  // ---------------------------------------------------------------------
  // What the engine reads from the probe
  // ---------------------------------------------------------------------

  /** `(info.get("codec_name") or "").lower()` */
  function LowerCodecName(info: Option<StreamInfo>): string {
    match info
    case None => ""
    case Some(s) => Lower(s.codecName.GetOr(""))
  }

  /** `(info.get("sample_fmt") or "").lower()` */
  function LowerSampleFmt(info: Option<StreamInfo>): string {
    match info
    case None => ""
    case Some(s) => Lower(s.sampleFmt.GetOr(""))
  }

  /** `int(info.get("bit_rate") or 0)` */
  function ReportedBitRate(info: Option<StreamInfo>): int {
    match info
    case None => 0
    case Some(s) => s.bitRate.GetOr(0)
  }

  /**
   * _src_bitrate_kbps: the source bit rate in whole kbit/s. The stream's own
   * bit_rate when positive; otherwise an estimate from the file size (`size`,
   * None when stat fails) over the duration, when the duration is positive;
   * otherwise 0.
   */
  function SrcBitrateKbps(data: ProbeResult, size: Option<nat>): (kbps: int)
    ensures kbps >= 0
  {
    var br := ReportedBitRate(FirstStream(data));
    var dur := FormatDuration(data);
    var bps :=
      if br > 0 then br
      else if dur > 0.0 then
        match size
        case Some(s) => ((s * 8) as real / dur).Floor
        case None => 0
      else br;
    if bps / 1000 > 0 then bps / 1000 else 0
  }

  /**
   * The source bit rate is the reported rate in whole kbit/s when one is
   * reported; else the size-over-duration estimate in whole kbit/s when the
   * duration is positive and the size is known; else 0.
   */
  lemma SrcBitrateKbpsBrackets(data: ProbeResult, size: Option<nat>)
    ensures var kbps := SrcBitrateKbps(data, size); var br := ReportedBitRate(FirstStream(data));
      br > 0 ==> kbps * 1000 <= br < kbps * 1000 + 1000
    ensures var kbps := SrcBitrateKbps(data, size);
      var br := ReportedBitRate(FirstStream(data)); var dur := FormatDuration(data);
      br <= 0 && dur > 0.0 && size.Some? ==>
        (kbps * 1000) as real <= (size.value * 8) as real / dur < (kbps * 1000 + 1000) as real
    ensures var kbps := SrcBitrateKbps(data, size);
      var br := ReportedBitRate(FirstStream(data)); var dur := FormatDuration(data);
      br <= 0 && (dur <= 0.0 || size.None?) ==> kbps == 0
  {
  }

  // ---------------------------------------------------------------------
  // MP3 bit-rate ladder
  // ---------------------------------------------------------------------

  ghost predicate Ascending(s: seq<int>) {
    forall i, j :: 0 <= i < j < |s| ==> s[i] < s[j]
  }

  /** Each entry is below the next one. */
  predicate StepsUp(s: seq<int>) {
    forall i :: 0 <= i < |s| - 1 ==> s[i] < s[i + 1]
  }

  /** A ladder that steps up between neighbours is ascending throughout. */
  lemma {:induction false} StepsUpAscending(s: seq<int>)
    requires StepsUp(s)
    ensures Ascending(s)
  {
    if |s| > 1 {
      StepsUpAscending(s[1..]);
      forall i, j | 0 <= i < j < |s|
        ensures s[i] < s[j]
      {
        if i > 0 {
          assert s[1..][i - 1] < s[1..][j - 1];
        } else if j > 1 {
          assert s[1..][0] < s[1..][j - 1];
        }
      }
    }
  }

  /** The first entry of `ladder` that is at least `k`. */
  function FirstAtLeast(ladder: seq<int>, k: int): Option<int> {
    if ladder == [] then None
    else if k <= ladder[0] then Some(ladder[0])
    else FirstAtLeast(ladder[1..], k)
  }

  /** On an ascending ladder the first entry at least `k` is the least such entry. */
  lemma {:induction false} FirstAtLeastIsLeast(ladder: seq<int>, k: int)
    requires Ascending(ladder)
    ensures var r := FirstAtLeast(ladder, k);
      && (r.Some? ==> r.value in ladder && k <= r.value && forall w :: w in ladder && k <= w ==> r.value <= w)
      && (r.None? ==> forall w :: w in ladder ==> w < k)
  {
    if ladder != [] && k > ladder[0] {
      FirstAtLeastIsLeast(ladder[1..], k);
      assert forall w :: w in ladder ==> w == ladder[0] || w in ladder[1..];
    }
  }

  /** What `_round_up_mp3_cbr(kbps)` returns, as a function. */
  function Mp3Ceil(kbps: int): int {
    FirstAtLeast(MP3_CBR_SET, kbps).GetOr(320)
  }

  /** Mp3Ceil is always a ladder value: the least one at or above `kbps`, or 320 above the ladder. */
  lemma Mp3CeilOnLadder(kbps: int)
    ensures Mp3Ceil(kbps) in MP3_CBR_SET
    ensures kbps <= 320 ==> kbps <= Mp3Ceil(kbps) && forall w :: w in MP3_CBR_SET && kbps <= w ==> Mp3Ceil(kbps) <= w
    ensures kbps > 320 ==> Mp3Ceil(kbps) == 320
  {
    assert StepsUp(MP3_CBR_SET);
    StepsUpAscending(MP3_CBR_SET);
    FirstAtLeastIsLeast(MP3_CBR_SET, kbps);
    assert MP3_CBR_SET[13] == 320;
  }

  /** _round_up_mp3_cbr: walk the ladder and stop at the first entry not below `kbps`. */
  method RoundUpMp3Cbr(kbps: int) returns (v: int)
    ensures v == Mp3Ceil(kbps)
    ensures v in MP3_CBR_SET
    ensures kbps <= 320 ==> kbps <= v && forall w :: w in MP3_CBR_SET && kbps <= w ==> v <= w
    ensures kbps > 320 ==> v == 320
    ensures kbps > 320 ==> v == 320
  {
    Mp3CeilOnLadder(kbps);
    var i := 0;
    while i < |MP3_CBR_SET|
      invariant 0 <= i <= |MP3_CBR_SET|
      invariant FirstAtLeast(MP3_CBR_SET[i..], kbps) == FirstAtLeast(MP3_CBR_SET, kbps)
    {
      if kbps <= MP3_CBR_SET[i] {
        return MP3_CBR_SET[i];
      }
      assert MP3_CBR_SET[i..][1..] == MP3_CBR_SET[i + 1..];
      i := i + 1;
    }
    return 320;
  }

  // ---------------------------------------------------------------------
  // Vorbis quality table
  // ---------------------------------------------------------------------

  /** _kbps_to_vorbis_q */
  function KbpsToVorbisQ(kbps: int): (q: int)
    ensures 5 <= q <= 10
  {
    if kbps >= 420 then 10
    else if kbps >= 300 then 9
    else if kbps >= 250 then 8
    else if kbps >= 210 then 7
    else if kbps >= 180 then 6
    else 5
  }

  /** How many of the breakpoints `kbps` reaches. */
  function Reached(breakpoints: seq<int>, kbps: int): nat {
    if breakpoints == [] then 0
    else (if kbps >= breakpoints[0] then 1 else 0) + Reached(breakpoints[1..], kbps)
  }

  lemma {:induction false} ReachedMonotone(breakpoints: seq<int>, a: int, b: int)
    requires a <= b
    ensures Reached(breakpoints, a) <= Reached(breakpoints, b)
  {
    if breakpoints != [] {
      ReachedMonotone(breakpoints[1..], a, b);
    }
  }

  /** The table is "q5 plus one step per breakpoint reached". */
  lemma VorbisQCountsBreakpoints(kbps: int)
    ensures KbpsToVorbisQ(kbps) == 5 + Reached(VORBIS_BREAKPOINTS, kbps)
  {
    var b := VORBIS_BREAKPOINTS;
    assert b[1..] == [210, 250, 300, 420] && b[2..] == [250, 300, 420] && b[3..] == [300, 420] && b[4..] == [420];
    assert b[1..][1..] == b[2..] && b[2..][1..] == b[3..] && b[3..][1..] == b[4..] && b[4..][1..] == [];
    assert Reached(b[4..], kbps) == (if kbps >= 420 then 1 else 0);
    assert Reached(b[3..], kbps) == (if kbps >= 300 then 1 else 0) + Reached(b[4..], kbps);
    assert Reached(b[2..], kbps) == (if kbps >= 250 then 1 else 0) + Reached(b[3..], kbps);
    assert Reached(b[1..], kbps) == (if kbps >= 210 then 1 else 0) + Reached(b[2..], kbps);
    assert Reached(b, kbps) == (if kbps >= 180 then 1 else 0) + Reached(b[1..], kbps);
  }

  /** A higher source bit rate never gives a lower Vorbis quality. */
  lemma VorbisQMonotone(a: int, b: int)
    requires a <= b
    ensures KbpsToVorbisQ(a) <= KbpsToVorbisQ(b)
  {
    VorbisQCountsBreakpoints(a);
    VorbisQCountsBreakpoints(b);
    ReachedMonotone(VORBIS_BREAKPOINTS, a, b);
  }

  /** The quality moves by exactly one step at each breakpoint and nowhere else. */
  lemma VorbisQSwitchPoints(kbps: int)
    ensures KbpsToVorbisQ(kbps) - KbpsToVorbisQ(kbps - 1) == (if kbps in VORBIS_BREAKPOINTS then 1 else 0)
  {
  }

  // ---------------------------------------------------------------------
  // Lossy-to-lossy matching
  // ---------------------------------------------------------------------

  /** The dict `_match_policy_for_lossy` returns: `{}`, `{"mode":"cbr","kbps":k}` or `{"mode":"vorbis_q","vorbis_q":q}`. */
  datatype LossyMatch = NoMatch | Cbr(kbps: int) | VorbisQuality(q: int)

  /**
   * _match_policy_for_lossy: for a lossy source, the target setting that
   * matches the source's bit rate; nothing for a lossless or unknown source.
   */
  function MatchPolicyForLossy(data: ProbeResult, size: Option<nat>, target: string): (m: LossyMatch)
    ensures !FormatIsLossy(LowerCodecName(FirstStream(data))) ==> m == NoMatch
    ensures target !in {"mp3", "aac", "opus", "vorbis"} ==> m == NoMatch
  {
    var info := FirstStream(data);
    if !FormatIsLossy(LowerCodecName(info)) then NoMatch
    else
      var src := SrcBitrateKbps(data, size);
      if target == "mp3" then
        var floor := if src > 96 then src else 96;
        Cbr(if Mp3Ceil(floor) < 320 then Mp3Ceil(floor) else 320)
      else if target == "aac" then
        Cbr(Clamp(src, 96, 320))
      else if target == "opus" then
        Cbr(Clamp(src, 96, 256))
      else if target == "vorbis" then
        VorbisQuality(KbpsToVorbisQ(src))
      else NoMatch
  }

  /**
   * For a lossy source, the mp3 match is a ladder rate in [96,320]: the
   * least one at or above the source's rate, and 320 above the ladder.
   */
  lemma MatchPolicyMp3(data: ProbeResult, size: Option<nat>)
    requires FormatIsLossy(LowerCodecName(FirstStream(data)))
    ensures var m := MatchPolicyForLossy(data, size, "mp3");
      var src := SrcBitrateKbps(data, size);
      && m.Cbr? && m.kbps in MP3_CBR_SET && 96 <= m.kbps <= 320
      && (src <= 320 ==> src <= m.kbps)
      && (src > 320 ==> m.kbps == 320)
      && (forall w :: w in MP3_CBR_SET && 96 <= w && src <= w ==> m.kbps <= w)
  {
    var src := SrcBitrateKbps(data, size);
    var floor := if src > 96 then src else 96;
    Mp3CeilOnLadder(floor);
    assert MP3_CBR_SET[6] == 96;
  }

  /**
   * For a lossy source, the aac and opus matches are the source's rate
   * clamped to [96,320] and [96,256]; the vorbis match is the table quality.
   */
  lemma MatchPolicyBounds(data: ProbeResult, size: Option<nat>, target: string)
    requires FormatIsLossy(LowerCodecName(FirstStream(data)))
    ensures var m := MatchPolicyForLossy(data, size, target);
      var src := SrcBitrateKbps(data, size);
      && (target == "aac" ==>
            && m.Cbr? && 96 <= m.kbps <= 320 && (96 <= src <= 320 ==> m.kbps == src)
            && (src < 96 ==> m.kbps == 96) && (src > 320 ==> m.kbps == 320))
      && (target == "opus" ==>
            && m.Cbr? && 96 <= m.kbps <= 256 && (96 <= src <= 256 ==> m.kbps == src)
            && (src < 96 ==> m.kbps == 96) && (src > 256 ==> m.kbps == 256))
      && (target == "vorbis" ==> m.VorbisQuality? && 5 <= m.q <= 10 && m.q == KbpsToVorbisQ(src))
  {
  }

  /** `min(hi, max(lo, x))` */
  function Clamp(x: int, lo: int, hi: int): int {
    var atLeast := if x > lo then x else lo;
    if atLeast < hi then atLeast else hi
  }

  // ---------------------------------------------------------------------
  // Stream-copy eligibility
  // ---------------------------------------------------------------------

  /** The result of a call that may raise KeyError (an index into EXT_FOR_FORMAT with an unknown key). */
  datatype Outcome<T> = Returns(value: T) | RaisesKeyError(key: string)

  /** The source codec names a stream copy into target `key` accepts. */
  function AcceptedSourceCodecs(key: string): set<string> {
    if key == "wav" then {"pcm_s16le", "pcm_s24le", "pcm_f32le", "pcm_s32le"}
    else if key == "flac" then {"flac"}
    else if key == "alac" then {"alac"}
    else if key == "mp3" then {"mp3"}
    else if key == "aac" then {"aac"}
    else if key == "opus" then {"opus"}
    else if key == "vorbis" then {"vorbis", "libvorbis"}
    else {}
  }

  /** `info.get("codec_name", "")` (not lower-cased, unlike the lossy test). */
  function SourceCodec(info: StreamInfo): string {
    info.codecName.GetOr("")
  }

  /** In custom mode, the requested sample rate and channel count are "keep" (0) or the source's own. */
  predicate KeepsStreamShape(params: QualityParams, info: StreamInfo) {
    var srcSr := info.sampleRate.GetOr(0);
    var srcCh := info.channels.GetOr(0);
    params.IsCustom() ==> params.Samplerate() in {0, srcSr} && params.Channels() in {0, srcCh}
  }

  /** `os.path.splitext(out_f.lower())[1]` */
  function OutputExtension(outF: string): string {
    SplitExt(Lower(outF)).1
  }

  /**
   * can_stream_copy: the first audio stream can be copied into `outF`
   * unchanged. False for an empty probe, for a custom resample or remix
   * request, for a mismatched output extension, and for a source codec the
   * target does not accept; KeyError for an unknown target key that gets as
   * far as the extension table.
   */
  function CanStreamCopy(outF: string, key: string, params: QualityParams, info: Option<StreamInfo>)
    : (r: Outcome<bool>)
    ensures r == Returns(true) <==>
      && info.Some? && KeepsStreamShape(params, info.value)
      && key in EXT_FOR_FORMAT && OutputExtension(outF) == EXT_FOR_FORMAT[key]
      && SourceCodec(info.value) in AcceptedSourceCodecs(key)
    ensures r.RaisesKeyError? <==> info.Some? && KeepsStreamShape(params, info.value) && key !in EXT_FOR_FORMAT
  {
    match info
    case None => Returns(false)
    case Some(s) =>
      var srcCodec := SourceCodec(s);
      var srcSr := s.sampleRate.GetOr(0);
      var srcCh := s.channels.GetOr(0);
      if params.IsCustom() && params.Samplerate() !in {0, srcSr} then Returns(false)
      else if params.IsCustom() && params.Channels() !in {0, srcCh} then Returns(false)
      else if key !in EXT_FOR_FORMAT then RaisesKeyError(key)
      else if OutputExtension(outF) != EXT_FOR_FORMAT[key] then Returns(false)
      else if key in {"wav", "flac", "alac"} then Returns(srcCodec in AcceptedSourceCodecs(key))
      else if key == "mp3" then Returns(srcCodec == "mp3")
      else if key == "aac" then Returns(srcCodec in {"aac"})
      else if key == "opus" then Returns(srcCodec == "opus")
      else if key == "vorbis" then Returns(srcCodec in {"vorbis", "libvorbis"})
      else Returns(false)
  }

  /** A source that already is what the target asks for, with no resample or remix requested, is copied. */
  lemma CopyWhenSourceMatches(outF: string, key: string, params: QualityParams, info: StreamInfo)
    requires key in EXT_FOR_FORMAT && OutputExtension(outF) == EXT_FOR_FORMAT[key]
    requires SourceCodec(info) in AcceptedSourceCodecs(key)
    requires params.Samplerate() in {0, info.sampleRate.GetOr(0)}
    requires params.Channels() in {0, info.channels.GetOr(0)}
    ensures CanStreamCopy(outF, key, params, Some(info)) == Returns(true)
  {
  }

  /** An explicit custom resample or remix to something other than the source's own never copies. */
  lemma ResampleRequestPreventsCopy(outF: string, key: string, params: QualityParams, info: StreamInfo)
    requires params.IsCustom()
    requires params.Samplerate() !in {0, info.sampleRate.GetOr(0)} || params.Channels() !in {0, info.channels.GetOr(0)}
    ensures CanStreamCopy(outF, key, params, Some(info)) == Returns(false)
  {
  }

  // ---------------------------------------------------------------------
  // Codec arguments
  // ---------------------------------------------------------------------

  /** _soxr_filter */
  function SoxrFilter(useSoxr: bool): (args: seq<string>)
    ensures useSoxr ==> args == ["-af", SOXR_FILTER]
    ensures !useSoxr ==> args == []
  {
    if useSoxr then ["-af", SOXR_FILTER] else []
  }

  /**
   * The resampling prefix of build_codec_args: the soxr filter when enabled,
   * then `-ar <rate>` for a positive sample rate, then `-ac <n>` for a
   * positive channel count.
   */
  function ResampleArgs(params: QualityParams): (args: seq<string>)
    ensures var soxr := if params.UseSoxr() then 2 else 0;
      && |args| == soxr + (if params.Samplerate() > 0 then 2 else 0) + (if params.Channels() > 0 then 2 else 0)
      && (params.UseSoxr() ==> args[..2] == ["-af", SOXR_FILTER])
      && (params.Samplerate() > 0 ==> args[soxr..soxr + 2] == ["-ar", IntToDecimal(params.Samplerate())])
      && (params.Channels() > 0 ==> args[|args| - 2..] == ["-ac", IntToDecimal(params.Channels())])
      && (("-ar" in args) <==> params.Samplerate() > 0)
      && (("-ac" in args) <==> params.Channels() > 0)
  {
    var soxr := SoxrFilter(params.UseSoxr());
    var rate := if params.Samplerate() > 0 then ["-ar", IntToDecimal(params.Samplerate())] else [];
    var chans := if params.Channels() > 0 then ["-ac", IntToDecimal(params.Channels())] else [];
    assert params.Samplerate() > 0 ==> IsDigit(IntToDecimal(params.Samplerate())[0]);
    assert params.Channels() > 0 ==> IsDigit(IntToDecimal(params.Channels())[0]);
    assert "-ar" !in soxr && "-ac" !in soxr && "-ar" !in chans && "-ac" !in rate;
    soxr + rate + chans
  }

  /** A sample format `fltp`, `flt` or `dbl` names (planar or packed floating point). */
  predicate IsFloatFmt(fmt: string) {
    Contains(fmt, "fltp") || Contains(fmt, "flt") || Contains(fmt, "dbl")
  }

  /** A sample format the lossless encoders store in 32 bits: 24/32-bit integer or floating point. */
  predicate IsWideFmt(fmt: string) {
    Contains(fmt, "s32") || Contains(fmt, "s24") || IsFloatFmt(fmt)
  }

  /** _wav_codec_for_source: float PCM for a float source, 32-bit PCM for a 32-bit source, 24-bit otherwise. */
  function WavCodecForSource(info: Option<StreamInfo>): (args: seq<string>)
    ensures var fmt := LowerSampleFmt(info);
      && (args == ["-c:a", "pcm_f32le"] <==> IsFloatFmt(fmt))
      && (args == ["-c:a", "pcm_s32le"] <==> !IsFloatFmt(fmt) && Contains(fmt, "s32"))
      && (args == ["-c:a", "pcm_s24le"] <==> !IsFloatFmt(fmt) && !Contains(fmt, "s32"))
  {
    var fmt := LowerSampleFmt(info);
    if IsFloatFmt(fmt) then ["-c:a", "pcm_f32le"]
    else if Contains(fmt, "s32") then ["-c:a", "pcm_s32le"]
    else ["-c:a", "pcm_s24le"]
  }

  /**
   * _format_sample_opts_lossless: FLAC stores wide sources as s32 and the
   * rest as s16; ALAC the same in planar form (s32p / s16p); other keys none.
   */
  function FormatSampleOptsLossless(key: string, info: Option<StreamInfo>): (args: seq<string>)
    ensures var wide := IsWideFmt(LowerSampleFmt(info));
      && (key == "flac" ==> args == ["-sample_fmt", if wide then "s32" else "s16"])
      && (key == "alac" ==> args == ["-sample_fmt", if wide then "s32p" else "s16p"])
      && (key !in {"flac", "alac"} ==> args == [])
  {
    var fmt := LowerSampleFmt(info);
    if key == "flac" then
      if Contains(fmt, "s32") || Contains(fmt, "s24") || Contains(fmt, "fltp") || Contains(fmt, "flt") || Contains(fmt, "dbl")
      then ["-sample_fmt", "s32"] else ["-sample_fmt", "s16"]
    else if key == "alac" then
      if Contains(fmt, "s32") || Contains(fmt, "s24") || Contains(fmt, "fltp") || Contains(fmt, "flt") || Contains(fmt, "dbl")
      then ["-sample_fmt", "s32p"] else ["-sample_fmt", "s16p"]
    else []
  }

  /** `f"{k}k"` */
  function Kbps(k: int): (s: string)
    ensures |s| > 1 && s[|s| - 1] == 'k'
  {
    IntToDecimal(k) + "k"
  }

  const OPUS_TAIL: seq<string> := ["-vbr", "on", "-compression_level", "10", "-application", "audio"]
  const MOVFLAGS: seq<string> := ["-movflags", "use_metadata_tags"]

  /**
   * The mp3 branch of build_codec_args, after the resampling prefix: LAME,
   * with a VBR quality exactly when custom mode asks for one in 0..9, and a
   * bit rate otherwise.
   */
  function Mp3Args(params: QualityParams, m: LossyMatch): (r: seq<string>)
    ensures |r| == 4 && r[..2] == ["-c:a", "libmp3lame"]
    ensures r[2] == "-q:a" <==> params.Mode() != "max" && 0 <= params.vbrQ.GetOr(0) <= 9
    ensures r[2] != "-q:a" ==> r[2] == "-b:a" && |r[3]| > 1 && r[3][|r[3]| - 1] == 'k'
  {
    if params.Mode() == "max" then
      if m.Cbr? then ["-c:a", "libmp3lame", "-b:a", Kbps(m.kbps)]
      else ["-c:a", "libmp3lame", "-b:a", "320k"]
    else
      var vbrQ := params.vbrQ.GetOr(0);
      var br := params.bitrateK.GetOr(320);
      if 0 <= vbrQ <= 9 then ["-c:a", "libmp3lame", "-q:a", IntToDecimal(vbrQ)]
      else ["-c:a", "libmp3lame", "-b:a", Kbps(br)]
  }

  /** The aac branch of build_codec_args, after the resampling prefix: always a bit rate, then the MP4 tag flags. */
  function AacArgs(params: QualityParams, m: LossyMatch): (r: seq<string>)
    ensures |r| == 6 && r[..3] == ["-c:a", "aac", "-b:a"] && r[4..] == MOVFLAGS
    ensures |r[3]| > 1 && r[3][|r[3]| - 1] == 'k'
  {
    var rate :=
      if params.Mode() == "max" then
        if m.Cbr? then ["-c:a", "aac", "-b:a", Kbps(m.kbps)] else ["-c:a", "aac", "-b:a", "320k"]
      else ["-c:a", "aac", "-b:a", Kbps(params.bitrateK.GetOr(256))];
    rate + MOVFLAGS
  }

  /** The opus branch of build_codec_args, after the resampling prefix: always a bit rate, then the Opus tail options. */
  function OpusArgs(params: QualityParams, m: LossyMatch): (r: seq<string>)
    ensures |r| == 10 && r[..3] == ["-c:a", "libopus", "-b:a"] && r[4..] == OPUS_TAIL
    ensures |r[3]| > 1 && r[3][|r[3]| - 1] == 'k'
  {
    if params.Mode() == "max" then
      if m.Cbr? then ["-c:a", "libopus", "-b:a", Kbps(m.kbps)] + OPUS_TAIL
      else ["-c:a", "libopus", "-b:a", "510k"] + OPUS_TAIL
    else ["-c:a", "libopus", "-b:a", Kbps(params.bitrateK.GetOr(192))] + OPUS_TAIL
  }

  /**
   * The vorbis branch of build_codec_args, after the resampling prefix: a
   * quality level, except in custom mode with a quality outside 0..10,
   * which falls back to a bit rate.
   */
  function VorbisArgs(params: QualityParams, m: LossyMatch): (r: seq<string>)
    ensures |r| == 4 && r[..2] == ["-c:a", "libvorbis"]
    ensures r[2] == "-b:a" <==> params.Mode() != "max" && !(0 <= params.vbrQ.GetOr(7) <= 10)
    ensures r[2] != "-b:a" ==> r[2] == "-q:a"
    ensures r[2] == "-b:a" ==> |r[3]| > 1 && r[3][|r[3]| - 1] == 'k'
  {
    if params.Mode() == "max" then
      if m.VorbisQuality? then ["-c:a", "libvorbis", "-q:a", IntToDecimal(m.q)]
      else ["-c:a", "libvorbis", "-q:a", "10"]
    else
      var vbrQ := params.vbrQ.GetOr(7);
      if 0 <= vbrQ <= 10 then ["-c:a", "libvorbis", "-q:a", IntToDecimal(vbrQ)]
      else ["-c:a", "libvorbis", "-b:a", Kbps(params.bitrateK.GetOr(256))]
  }

  /** build_codec_args' result: the ffmpeg arguments and the output extension. */
  datatype EncodePlan = EncodePlan(args: seq<string>, ext: string)

  /**
   * The per-format branch of build_codec_args: the codec arguments that
   * follow the resampling prefix, and the extension that branch returns.
   */
  function CodecBranch(key: string, params: QualityParams, data: ProbeResult, size: Option<nat>)
    : (b: EncodePlan)
    requires key in EXT_FOR_FORMAT
    ensures b.ext == EXT_FOR_FORMAT[key] && |b.args| > 0
  {
    var info := FirstStream(data);
    if key == "wav" then
      EncodePlan(WavCodecForSource(info), ".wav")
    else if key == "flac" then
      EncodePlan(["-c:a", "flac", "-compression_level", "8"] + FormatSampleOptsLossless(key, info), ".flac")
    else if key == "alac" then
      EncodePlan(["-c:a", "alac"] + FormatSampleOptsLossless(key, info) + MOVFLAGS, ".m4a")
    else if key == "mp3" then
      EncodePlan(Mp3Args(params, MatchPolicyForLossy(data, size, "mp3")), ".mp3")
    else if key == "aac" then
      EncodePlan(AacArgs(params, MatchPolicyForLossy(data, size, "aac")), ".m4a")
    else if key == "opus" then
      EncodePlan(OpusArgs(params, MatchPolicyForLossy(data, size, "opus")), ".opus")
    else
      EncodePlan(VorbisArgs(params, MatchPolicyForLossy(data, size, "vorbis")), ".ogg")
  }

  /**
   * build_codec_args: for a known key, the resampling prefix followed by the
   * target codec's arguments, with that key's container extension; for an
   * unknown key, a plain stream copy (and no resampling at all).
   */
  function BuildCodecArgs(key: string, params: QualityParams, data: ProbeResult, size: Option<nat>)
    : (plan: EncodePlan)
    ensures key in EXT_FOR_FORMAT ==>
      && plan.ext == EXT_FOR_FORMAT[key]
      && |ResampleArgs(params)| < |plan.args|
      && plan.args[..|ResampleArgs(params)|] == ResampleArgs(params)
    ensures key !in EXT_FOR_FORMAT ==> plan == EncodePlan(["-c:a", "copy"], ".out")
  {
    if key in EXT_FOR_FORMAT then
      var prefix := ResampleArgs(params);
      var branch := CodecBranch(key, params, data, size);
      assert (prefix + branch.args)[..|prefix|] == prefix;
      EncodePlan(prefix + branch.args, branch.ext)
    else
      EncodePlan(["-c:a", "copy"], ".out")
  }

  /** The codec part of a plan: what follows the resampling prefix. */
  function CodecPart(key: string, params: QualityParams, data: ProbeResult, size: Option<nat>): (part: seq<string>)
    requires key in EXT_FOR_FORMAT
    ensures part == CodecBranch(key, params, data, size).args
  {
    var prefix := ResampleArgs(params);
    assert (prefix + CodecBranch(key, params, data, size).args)[|prefix|..] == CodecBranch(key, params, data, size).args;
    BuildCodecArgs(key, params, data, size).args[|prefix|..]
  }

  /** wav: 32-bit float PCM for a float source, 32-bit integer PCM for an s32 source, 24-bit PCM otherwise. */
  lemma WavCodecArgs(params: QualityParams, data: ProbeResult, size: Option<nat>)
    ensures var fmt := LowerSampleFmt(FirstStream(data));
      CodecPart("wav", params, data, size)
        == ["-c:a", if IsFloatFmt(fmt) then "pcm_f32le" else if Contains(fmt, "s32") then "pcm_s32le" else "pcm_s24le"]
  {
  }

  /** flac: compression level 8, stored in 32 bits for a wide source and 16 bits otherwise. */
  lemma FlacCodecArgs(params: QualityParams, data: ProbeResult, size: Option<nat>)
    ensures var fmt := LowerSampleFmt(FirstStream(data));
      CodecPart("flac", params, data, size)
        == ["-c:a", "flac", "-compression_level", "8", "-sample_fmt", if IsWideFmt(fmt) then "s32" else "s16"]
  {
  }

  /** alac: planar 32 or 16 bits by the same width test, then the metadata atom flags. */
  lemma AlacCodecArgs(params: QualityParams, data: ProbeResult, size: Option<nat>)
    ensures var fmt := LowerSampleFmt(FirstStream(data));
      CodecPart("alac", params, data, size)
        == ["-c:a", "alac", "-sample_fmt", if IsWideFmt(fmt) then "s32p" else "s16p"] + MOVFLAGS
  {
    var info := FirstStream(data);
    var width := if IsWideFmt(LowerSampleFmt(info)) then "s32p" else "s16p";
    var opts := FormatSampleOptsLossless("alac", info);
    assert opts == ["-sample_fmt", width];
    assert CodecBranch("alac", params, data, size).args == ["-c:a", "alac"] + opts + MOVFLAGS;
    assert ["-c:a", "alac"] + opts == ["-c:a", "alac", "-sample_fmt", width];
  }

  /** In max mode a lossless (or unknown) source gets each lossy codec's maximum. */
  lemma MaxModeLosslessMp3(params: QualityParams, data: ProbeResult, size: Option<nat>)
    requires params.Mode() == "max"
    requires !FormatIsLossy(LowerCodecName(FirstStream(data)))
    ensures CodecPart("mp3", params, data, size) == ["-c:a", "libmp3lame", "-b:a", "320k"]
  {
  }

  lemma MaxModeLosslessAac(params: QualityParams, data: ProbeResult, size: Option<nat>)
    requires params.Mode() == "max"
    requires !FormatIsLossy(LowerCodecName(FirstStream(data)))
    ensures CodecPart("aac", params, data, size) == ["-c:a", "aac", "-b:a", "320k"] + MOVFLAGS
  {
  }

  lemma MaxModeLosslessOpus(params: QualityParams, data: ProbeResult, size: Option<nat>)
    requires params.Mode() == "max"
    requires !FormatIsLossy(LowerCodecName(FirstStream(data)))
    ensures CodecPart("opus", params, data, size) == ["-c:a", "libopus", "-b:a", "510k"] + OPUS_TAIL
  {
  }

  lemma MaxModeLosslessVorbis(params: QualityParams, data: ProbeResult, size: Option<nat>)
    requires params.Mode() == "max"
    requires !FormatIsLossy(LowerCodecName(FirstStream(data)))
    ensures CodecPart("vorbis", params, data, size) == ["-c:a", "libvorbis", "-q:a", "10"]
  {
  }

  /**
   * In max mode a lossy mp3 target is matched, not exceeded: the least
   * ladder rate at or above the source's, never below 96.
   */
  lemma MaxModeLossyMp3(params: QualityParams, data: ProbeResult, size: Option<nat>)
    requires params.Mode() == "max"
    requires FormatIsLossy(LowerCodecName(FirstStream(data)))
    ensures var src := SrcBitrateKbps(data, size);
      exists v :: && v in MP3_CBR_SET && 96 <= v <= 320 && (src <= 320 ==> src <= v)
                  && (src > 320 ==> v == 320)
                  && (forall w :: w in MP3_CBR_SET && 96 <= w && src <= w ==> v <= w)
                  && CodecPart("mp3", params, data, size) == ["-c:a", "libmp3lame", "-b:a", Kbps(v)]
  {
    var m := MatchPolicyForLossy(data, size, "mp3");
    MatchPolicyMp3(data, size);
    assert CodecBranch("mp3", params, data, size).args == Mp3Args(params, m);
  }

  /** In max mode a lossy source gives aac its own bit rate clamped to [96,320]. */
  lemma MaxModeLossyAac(params: QualityParams, data: ProbeResult, size: Option<nat>)
    requires params.Mode() == "max"
    requires FormatIsLossy(LowerCodecName(FirstStream(data)))
    ensures CodecPart("aac", params, data, size)
            == ["-c:a", "aac", "-b:a", Kbps(Clamp(SrcBitrateKbps(data, size), 96, 320))] + MOVFLAGS
  {
  }

  /** In max mode a lossy source gives opus its own bit rate clamped to [96,256]. */
  lemma MaxModeLossyOpus(params: QualityParams, data: ProbeResult, size: Option<nat>)
    requires params.Mode() == "max"
    requires FormatIsLossy(LowerCodecName(FirstStream(data)))
    ensures CodecPart("opus", params, data, size)
            == ["-c:a", "libopus", "-b:a", Kbps(Clamp(SrcBitrateKbps(data, size), 96, 256))] + OPUS_TAIL
  {
  }

  /** In max mode a lossy source gives vorbis the table quality for its bit rate. */
  lemma MaxModeLossyVorbis(params: QualityParams, data: ProbeResult, size: Option<nat>)
    requires params.Mode() == "max"
    requires FormatIsLossy(LowerCodecName(FirstStream(data)))
    ensures CodecPart("vorbis", params, data, size)
            == ["-c:a", "libvorbis", "-q:a", IntToDecimal(KbpsToVorbisQ(SrcBitrateKbps(data, size)))]
  {
  }

  /** Outside max mode mp3 uses the VBR quality when it is 0..9 (default 0), else the bit rate (default 320). */
  lemma CustomModeMp3(params: QualityParams, data: ProbeResult, size: Option<nat>)
    requires params.Mode() != "max"
    ensures var q := params.vbrQ.GetOr(0);
      CodecPart("mp3", params, data, size)
        == if 0 <= q <= 9 then ["-c:a", "libmp3lame", "-q:a", IntToDecimal(q)]
           else ["-c:a", "libmp3lame", "-b:a", Kbps(params.bitrateK.GetOr(320))]
  {
  }

  /** Outside max mode aac uses the requested bit rate (default 256). */
  lemma CustomModeAac(params: QualityParams, data: ProbeResult, size: Option<nat>)
    requires params.Mode() != "max"
    ensures CodecPart("aac", params, data, size) == ["-c:a", "aac", "-b:a", Kbps(params.bitrateK.GetOr(256))] + MOVFLAGS
  {
  }

  /** Outside max mode opus uses the requested bit rate (default 192). */
  lemma CustomModeOpus(params: QualityParams, data: ProbeResult, size: Option<nat>)
    requires params.Mode() != "max"
    ensures CodecPart("opus", params, data, size) == ["-c:a", "libopus", "-b:a", Kbps(params.bitrateK.GetOr(192))] + OPUS_TAIL
  {
  }

  /** Outside max mode vorbis uses the quality when it is 0..10 (default 7), else the bit rate (default 256). */
  lemma CustomModeVorbis(params: QualityParams, data: ProbeResult, size: Option<nat>)
    requires params.Mode() != "max"
    ensures var q := params.vbrQ.GetOr(7);
      CodecPart("vorbis", params, data, size)
        == if 0 <= q <= 10 then ["-c:a", "libvorbis", "-q:a", IntToDecimal(q)]
           else ["-c:a", "libvorbis", "-b:a", Kbps(params.bitrateK.GetOr(256))]
  {
  }

  /**
   * supports_cover: exactly the formats whose container carries an attached
   * picture (.mp3 with ID3 APIC, .m4a with MP4 atoms, .flac with PICTURE).
   */
  predicate SupportsCover(key: string)
    ensures SupportsCover(key) <==> key in EXT_FOR_FORMAT && EXT_FOR_FORMAT[key] in {".mp3", ".m4a", ".flac"}
  {
    key in {"mp3", "aac", "alac", "flac"}
  }

  // ---------------------------------------------------------------------
  // The engine reading through a cache object
  // ---------------------------------------------------------------------

  /** can_stream_copy reading the stream info through `cache`. */
  method CanStreamCopyCached(
    cache: MetadataCache, prober: string -> ProbeResult,
    inF: string, outF: string, key: string, params: QualityParams)
    returns (r: Outcome<bool>)
    requires cache.Valid()
    modifies cache
    ensures cache.Valid()
    ensures r == CanStreamCopy(outF, key, params, FirstStream(Lookup(old(cache.entries), prober, inF)))
    ensures cache.entries == Remember(old(cache.entries), prober, inF)
  {
    var info := cache.GetStreamInfo(prober, inF);
    r := CanStreamCopy(outF, key, params, info);
  }

  /** build_codec_args reading the probe through `cache`; an unknown key never touches it. */
  method BuildCodecArgsCached(
    cache: MetadataCache, prober: string -> ProbeResult,
    key: string, params: QualityParams, inF: string, size: Option<nat>)
    returns (plan: EncodePlan)
    requires cache.Valid()
    modifies cache
    ensures cache.Valid()
    ensures plan == BuildCodecArgs(key, params, Lookup(old(cache.entries), prober, inF), size)
    ensures cache.entries == if key in EXT_FOR_FORMAT then Remember(old(cache.entries), prober, inF) else old(cache.entries)
  {
    if key in EXT_FOR_FORMAT {
      var data := cache.GetOrProbe(prober, inF);
      plan := BuildCodecArgs(key, params, data, size);
    } else {
      plan := EncodePlan(["-c:a", "copy"], ".out");
    }
  }
}
