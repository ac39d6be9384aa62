/**
 * What one ffprobe call reports about a file (`-show_entries stream:format
 * -of json`), and the memoising cache in front of the prober
 * (quality_presets.py, class MetadataCache).
 */
module Probe {
  import opened Base

  /**
   * One entry of the JSON "streams" list. ffprobe writes the numeric fields
   * as decimal strings; they are held here as the integers `int(...)` reads.
   * A missing key is None.
   */
  datatype StreamInfo = StreamInfo(
    codecName: Option<string>,
    sampleRate: Option<int>,
    channels: Option<int>,
    sampleFmt: Option<string>,
    bitRate: Option<int>)

  /** The "duration" string of the JSON "format" object: a number, or text `float()` rejects (ffprobe's "N/A"). */
  datatype DurationText = Seconds(value: real) | NotANumber

  datatype FormatInfo = FormatInfo(duration: Option<DurationText>)

  /** The parsed JSON; a failed probe (non-zero exit, bad JSON) is the empty object. */
  datatype ProbeResult = ProbeResult(streams: seq<StreamInfo>, format: Option<FormatInfo>)

  const PROBE_FAILED: ProbeResult := ProbeResult([], None)

  /** get_stream_info on a probe result: the first stream, or None for the empty dict `{}`. */
  function FirstStream(data: ProbeResult): (info: Option<StreamInfo>)
    ensures info.None? <==> data.streams == []
    ensures info.Some? ==> info.value == data.streams[0]
  {
    if |data.streams| > 0 then Some(data.streams[0]) else None
  }

  /** get_duration on a probe result: the parsed format duration, 0.0 when absent or unparseable. */
  function FormatDuration(data: ProbeResult): (d: real)
    ensures (data.format.None? || data.format.value.duration.None?) ==> d == 0.0
    ensures data.format.Some? && data.format.value.duration == Some(NotANumber) ==> d == 0.0
    ensures data.format.Some? && data.format.value.duration.Some? && data.format.value.duration.value.Seconds?
            ==> d == data.format.value.duration.value.value
  {
    match data.format
    case None => 0.0
    case Some(f) =>
      match f.duration
      case None => 0.0
      case Some(NotANumber) => 0.0
      case Some(Seconds(x)) => x
  }

  /** The probe result `get_or_probe` hands back for `path`, given the cache's entries. */
  function Lookup(entries: map<string, ProbeResult>, prober: string -> ProbeResult, path: string): ProbeResult {
    if path in entries then entries[path] else prober(path)
  }

  /** The cache's entries after `get_or_probe(path)`. */
  function Remember(entries: map<string, ProbeResult>, prober: string -> ProbeResult, path: string)
    : (r: map<string, ProbeResult>)
    ensures r.Keys == entries.Keys + {path}
    ensures r[path] == Lookup(entries, prober, path)
    ensures forall p :: p in entries ==> r[p] == entries[p]
  {
    if path in entries then entries else entries[path := prober(path)]
  }

  /**
   * The path -> probe-result memo. `probeLog` records, in order, every path
   * handed to the prober since the cache was created or last cleared.
   */
  class MetadataCache {
    var entries: map<string, ProbeResult>
    ghost var probeLog: seq<string>

    /** Every cached path was probed exactly once since the last clear, and nothing else was. */
    ghost predicate Valid()
      reads this
    {
      && (forall i, j :: 0 <= i < j < |probeLog| ==> probeLog[i] != probeLog[j])
      && (forall p :: p in entries <==> p in probeLog)
    }

    constructor ()
      ensures Valid() && entries == map[] && probeLog == []
    {
      entries := map[];
      probeLog := [];
    }

    /** get_or_probe: probe `path` only when it is not cached yet, and keep the answer. */
    method GetOrProbe(prober: string -> ProbeResult, path: string) returns (r: ProbeResult)
      requires Valid()
      modifies this
      ensures Valid()
      ensures r == Lookup(old(entries), prober, path) && entries == Remember(old(entries), prober, path)
      ensures path in old(entries) ==> r == old(entries)[path] && probeLog == old(probeLog)
      ensures path !in old(entries) ==> r == prober(path) && probeLog == old(probeLog) + [path]
    {
      if path !in entries {
        entries := entries[path := prober(path)];
        probeLog := probeLog + [path];
      }
      r := entries[path];
    }

    /** get_stream_info: the first stream of the (cached) probe, or the empty dict. */
    method GetStreamInfo(prober: string -> ProbeResult, path: string) returns (info: Option<StreamInfo>)
      requires Valid()
      modifies this
      ensures Valid()
      ensures info == FirstStream(Lookup(old(entries), prober, path))
      ensures entries == Remember(old(entries), prober, path)
      ensures |probeLog| <= |old(probeLog)| + 1
    {
      var data := GetOrProbe(prober, path);
      info := FirstStream(data);
    }

    /** get_duration: the format duration of the (cached) probe, 0.0 when missing or unparseable. */
    method GetDuration(prober: string -> ProbeResult, path: string) returns (d: real)
      requires Valid()
      modifies this
      ensures Valid()
      ensures d == FormatDuration(Lookup(old(entries), prober, path))
      ensures entries == Remember(old(entries), prober, path)
      ensures |probeLog| <= |old(probeLog)| + 1
    {
      var data := GetOrProbe(prober, path);
      d := FormatDuration(data);
    }

    /** clear: forget every entry, so the next request for any path probes again. */
    method Clear()
      requires Valid()
      modifies this
      ensures Valid() && entries == map[] && probeLog == []
    {
      entries := map[];
      probeLog := [];
    }
  }

  /**
   * Two requests for the same path cost at most one prober call, and the
   * second one returns what the first did.
   */
  method ProbeTwice(cache: MetadataCache, prober: string -> ProbeResult, path: string)
    returns (first: ProbeResult, second: ProbeResult)
    requires cache.Valid()
    modifies cache
    ensures cache.Valid()
    ensures first == second == Lookup(old(cache.entries), prober, path)
    ensures path in old(cache.entries) ==> cache.probeLog == old(cache.probeLog)
    ensures path !in old(cache.entries) ==> cache.probeLog == old(cache.probeLog) + [path]
  {
    first := cache.GetOrProbe(prober, path);
    second := cache.GetOrProbe(prober, path);
  }
}
