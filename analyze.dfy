/** The analyse subcommand (runAnalyze, tools/vst3_harness/src/main.cpp):
    compare a wet rendering with its dry input, optionally after aligning it
    by the detected latency, and report levels, correlation, a null-test
    difference and whether any sample is NaN or infinite. */
module Analyze {
  import opened Wrappers
  import opened Samples
  import opened BufferOps
  import opened Latency
  import opened Metrics
  import opened Options

  /** The widest lag the alignment searches, in samples. */
  const MaxLagSamples := 4096

  /** The fields of metrics.json. */
  datatype Report = Report(
    sampleRate: real,
    channels: nat,
    numSamples: nat,
    detectedLatencySamples: int,
    wetLevels: LevelMetrics,
    correlation: Correlation,
    hasNaNOrInfWet: bool,
    hasNaNOrInfDelta: bool,
    deltaLevels: Option<LevelMetrics>)

  /** The aligned buffers, delta.wav when a null test was asked for, the
      report, and the process exit code. */
  datatype Analysis = Analysis(dryAligned: Buffer, wetAligned: Buffer, delta: Option<Buffer>, report: Report, exitCode: int)

  datatype AnalyzeError =
    | OptionRejected(optionError: OptionError)
    | SampleRateMismatch
    | NoChannels

  /** The lag the wet file is aligned by: the detected latency between the
      mono downmixes of both files' first `channels` channels when
      auto-align is on, otherwise 0. */
  function AlignmentLag(dry: Buffer, wet: Buffer, channels: nat, autoAlign: bool): (lag: int)
    requires dry.Valid() && wet.Valid()
    ensures -MaxLagSamples <= lag <= MaxLagSamples
    ensures !autoAlign ==> lag == 0
  {
    if autoAlign then
      var dryMono := MonoSum(ChannelsCopied(dry, channels));
      var wetMono := MonoSum(ChannelsCopied(wet, channels));
      DetectedLag(dryMono, wetMono, MaxLagSamples)
    else 0
  }

  /** The metrics, the optional null test and the exit code of two aligned
      buffers. */
  function Measured(sampleRate: real, lag: int, dryAligned: Buffer, wetAligned: Buffer, doNull: bool): Analysis
    requires dryAligned.Valid() && wetAligned.Valid() && SameShape(dryAligned, wetAligned)
  {
    var hasNaNOrInfWet := !wetAligned.AllFinite();
    var delta := if doNull then Some(Difference(wetAligned, dryAligned)) else None;
    var hasNaNOrInfDelta := delta.Some? && !delta.value.AllFinite();
    var report := Report(sampleRate, wetAligned.NumChannels(), wetAligned.numSamples, lag, LevelsOf(wetAligned),
                         CorrelationOf(dryAligned, wetAligned), hasNaNOrInfWet, hasNaNOrInfDelta,
                         if delta.Some? then Some(LevelsOf(delta.value)) else None);
    Analysis(dryAligned, wetAligned, delta, report, if hasNaNOrInfWet || hasNaNOrInfDelta then 2 else 0)
  }

  /** The analysis proper, once the checks have passed and the lag is known:
      align, then measure. */
  function Analysed(dry: AudioData, wet: AudioData, channels: nat, lag: int, doNull: bool): Analysis
    requires dry.buffer.Valid() && wet.buffer.Valid()
    requires 0 < channels <= dry.buffer.NumChannels() && channels <= wet.buffer.NumChannels()
  {
    var targetSamples := Max(dry.buffer.numSamples, wet.buffer.numSamples) + Abs(lag);
    Measured(dry.sampleRate, lag, Shifted(dry.buffer, channels, targetSamples, 0),
             Shifted(wet.buffer, channels, targetSamples, -lag), doNull)
  }

  /** Unfolds Analysed, as a proof step for the callers below. */
  lemma AnalysedIsMeasuredShifted(dry: AudioData, wet: AudioData, channels: nat, lag: int, doNull: bool)
    requires dry.buffer.Valid() && wet.buffer.Valid()
    requires 0 < channels <= dry.buffer.NumChannels() && channels <= wet.buffer.NumChannels()
    ensures var targetSamples := Max(dry.buffer.numSamples, wet.buffer.numSamples) + Abs(lag);
      Analysed(dry, wet, channels, lag, doNull)
      == Measured(dry.sampleRate, lag, Shifted(dry.buffer, channels, targetSamples, 0),
                  Shifted(wet.buffer, channels, targetSamples, -lag), doNull)
  {
  }

  /** runAnalyze as a value, up to the files it writes. */
  function AnalysisOf(options: OptionMap, dry: AudioData, wet: AudioData): Result<Analysis, AnalyzeError>
    requires dry.buffer.Valid() && wet.buffer.Valid()
  {
    var dryPath := RequiredOption(options, "dry");
    var wetPath := RequiredOption(options, "wet");
    var outDir := RequiredOption(options, "outdir");
    if dryPath.Err? then Err(OptionRejected(dryPath.error))
    else if wetPath.Err? then Err(OptionRejected(wetPath.error))
    else if outDir.Err? then Err(OptionRejected(outDir.error))
    else if AbsReal(dry.sampleRate - wet.sampleRate) > SampleRateTolerance then Err(SampleRateMismatch)
    else
      var channels := Min(dry.buffer.NumChannels(), wet.buffer.NumChannels());
      if channels <= 0 then Err(NoChannels)
      else
        var lag := AlignmentLag(dry.buffer, wet.buffer, channels, Flag(options, "auto-align"));
        Ok(Analysed(dry, wet, channels, lag, Flag(options, "null")))
  }

  /** The detected latency, when asked for, and both aligned buffers. */
  method Align(dry: Buffer, wet: Buffer, channels: nat, autoAlign: bool)
    returns (lag: int, dryAligned: Buffer, wetAligned: Buffer)
    requires dry.Valid() && wet.Valid()
    requires 0 < channels <= dry.NumChannels() && channels <= wet.NumChannels()
    ensures lag == AlignmentLag(dry, wet, channels, autoAlign)
    ensures dryAligned == Shifted(dry, channels, Max(dry.numSamples, wet.numSamples) + Abs(lag), 0)
    ensures wetAligned == Shifted(wet, channels, Max(dry.numSamples, wet.numSamples) + Abs(lag), -lag)
  {
    lag := 0;
    if autoAlign {
      var dryCopy := CopyChannels(dry, channels);
      var wetCopy := CopyChannels(wet, channels);
      var dryMono := MakeMonoSum(dryCopy);
      var wetMono := MakeMonoSum(wetCopy);
      lag := DetectLatencyByCrossCorrelation(dryMono, wetMono, MaxLagSamples);
    }
    var targetSamples := Max(dry.numSamples, wet.numSamples) + Abs(lag);
    dryAligned := ShiftAndResize(dry, channels, targetSamples, 0);
    wetAligned := ShiftAndResize(wet, channels, targetSamples, -lag);
  }

  /** The null test: the delta, its levels and its NaN/Inf flag. */
  method NullTest(wetAligned: Buffer, dryAligned: Buffer) returns (delta: Buffer, levels: LevelMetrics, hasNaNOrInf: bool)
    requires wetAligned.Valid() && dryAligned.Valid()
    requires dryAligned.NumChannels() >= wetAligned.NumChannels() && dryAligned.numSamples == wetAligned.numSamples
    ensures delta == Difference(wetAligned, dryAligned)
    ensures levels == LevelsOf(delta) && hasNaNOrInf == !delta.AllFinite()
  {
    delta := NullDelta(wetAligned, dryAligned);
    levels := ComputeLevels(delta);
    hasNaNOrInf := ContainsNaNOrInf(delta);
  }

  /** Metrics, null test and exit code of the aligned buffers. */
  method Measure(sampleRate: real, lag: int, dryAligned: Buffer, wetAligned: Buffer, doNull: bool) returns (analysis: Analysis)
    requires dryAligned.Valid() && wetAligned.Valid() && SameShape(dryAligned, wetAligned)
    ensures analysis == Measured(sampleRate, lag, dryAligned, wetAligned, doNull)
  {
    var wetLevels := ComputeLevels(wetAligned);
    var correlation := ComputeCorrelation(dryAligned, wetAligned);
    var hasNaNOrInfWet := ContainsNaNOrInf(wetAligned);
    var hasNaNOrInfDelta := false;
    var delta: Option<Buffer> := None;
    var deltaLevels: Option<LevelMetrics> := None;
    if doNull {
      var difference, levels, found := NullTest(wetAligned, dryAligned);
      hasNaNOrInfDelta := found;
      delta := Some(difference);
      deltaLevels := Some(levels);
    }
    var report := Report(sampleRate, wetAligned.NumChannels(), wetAligned.numSamples, lag, wetLevels, correlation,
                         hasNaNOrInfWet, hasNaNOrInfDelta, deltaLevels);
    var exitCode := if hasNaNOrInfWet || hasNaNOrInfDelta then 2 else 0;
    analysis := Analysis(dryAligned, wetAligned, delta, report, exitCode);
  }

  /** The analysis proper: alignment, then the measurements. */
  method Analyse(dry: AudioData, wet: AudioData, channels: nat, autoAlign: bool, doNull: bool) returns (analysis: Analysis)
    requires dry.buffer.Valid() && wet.buffer.Valid()
    requires 0 < channels <= dry.buffer.NumChannels() && channels <= wet.buffer.NumChannels()
    ensures analysis == Analysed(dry, wet, channels, AlignmentLag(dry.buffer, wet.buffer, channels, autoAlign), doNull)
  {
    var lag, dryAligned, wetAligned := Align(dry.buffer, wet.buffer, channels, autoAlign);
    AnalysedIsMeasuredShifted(dry, wet, channels, lag, doNull);
    analysis := Measure(dry.sampleRate, lag, dryAligned, wetAligned, doNull);
  }

  /** runAnalyze: the required options and flags, the sample-rate and
      channel checks, then the analysis. */
  method RunAnalyze(options: OptionMap, dry: AudioData, wet: AudioData) returns (result: Result<Analysis, AnalyzeError>)
    requires dry.buffer.Valid() && wet.buffer.Valid()
    ensures result == AnalysisOf(options, dry, wet)
  {
    var dryPath := RequiredOption(options, "dry");
    if dryPath.Err? {
      return Err(OptionRejected(dryPath.error));
    }
    var wetPath := RequiredOption(options, "wet");
    if wetPath.Err? {
      return Err(OptionRejected(wetPath.error));
    }
    var outDir := RequiredOption(options, "outdir");
    if outDir.Err? {
      return Err(OptionRejected(outDir.error));
    }
    var autoAlign := Flag(options, "auto-align");
    var doNull := Flag(options, "null");
    if AbsReal(dry.sampleRate - wet.sampleRate) > SampleRateTolerance {
      return Err(SampleRateMismatch);
    }
    var channels := Min(dry.buffer.NumChannels(), wet.buffer.NumChannels());
    if channels <= 0 {
      return Err(NoChannels);
    }
    var analysis := Analyse(dry, wet, channels, autoAlign, doNull);
    return Ok(analysis);
  }

  /** The measurements of two aligned buffers: the report describes the wet
      buffer's shape and the given lag, the delta wet - dry exists exactly
      when a null test is asked for, each NaN/Inf flag is set exactly when
      its buffer holds a non-finite sample, and the exit code is 2 exactly
      when a flag is set and 0 otherwise. */
  lemma MeasuredContract(sampleRate: real, lag: int, dryAligned: Buffer, wetAligned: Buffer, doNull: bool)
    requires dryAligned.Valid() && wetAligned.Valid() && SameShape(dryAligned, wetAligned)
    ensures var a := Measured(sampleRate, lag, dryAligned, wetAligned, doNull);
      && a.dryAligned == dryAligned && a.wetAligned == wetAligned
      && a.report.sampleRate == sampleRate && a.report.detectedLatencySamples == lag
      && a.report.channels == wetAligned.NumChannels() && a.report.numSamples == wetAligned.numSamples
      && a.report.wetLevels == LevelsOf(wetAligned) && a.report.correlation == CorrelationOf(dryAligned, wetAligned)
      && (a.delta.Some? <==> doNull)
      && (a.delta.Some? ==> a.delta.value == Difference(wetAligned, dryAligned)
                            && a.report.deltaLevels == Some(LevelsOf(a.delta.value)))
      && (a.delta.None? ==> a.report.deltaLevels.None?)
      && (a.report.hasNaNOrInfWet <==> !wetAligned.AllFinite())
      && (a.report.hasNaNOrInfDelta <==> a.delta.Some? && !a.delta.value.AllFinite())
      && (a.exitCode == 2 <==> a.report.hasNaNOrInfWet || a.report.hasNaNOrInfDelta)
      && (a.exitCode != 2 ==> a.exitCode == 0)
  {
  }

  /** Once the checks have passed: the lag is reported, both files are cut or
      padded to `channels` channels and max(dry, wet) + |lag| samples, dry
      unshifted and wet moved by -lag. */
  lemma AnalysedContract(dry: AudioData, wet: AudioData, channels: nat, lag: int, doNull: bool)
    requires dry.buffer.Valid() && wet.buffer.Valid()
    requires 0 < channels <= dry.buffer.NumChannels() && channels <= wet.buffer.NumChannels()
    ensures var a := Analysed(dry, wet, channels, lag, doNull);
      && a.report.detectedLatencySamples == lag
      && a.report.channels == channels
      && a.report.numSamples == Max(dry.buffer.numSamples, wet.buffer.numSamples) + Abs(lag)
      && a.dryAligned == Shifted(dry.buffer, channels, a.report.numSamples, 0)
      && a.wetAligned == Shifted(wet.buffer, channels, a.report.numSamples, -lag)
      && (a.delta.Some? <==> doNull)
  {
    var targetSamples := Max(dry.buffer.numSamples, wet.buffer.numSamples) + Abs(lag);
    MeasuredContract(dry.sampleRate, lag, Shifted(dry.buffer, channels, targetSamples, 0),
                     Shifted(wet.buffer, channels, targetSamples, -lag), doNull);
  }

  /** An analysis goes ahead exactly when --dry, --wet and --outdir are
      given, the sample rates agree within the tolerance and both files have
      a channel; otherwise the first failing check names the error. */
  lemma AnalyzeAccepts(options: OptionMap, dry: AudioData, wet: AudioData)
    requires dry.buffer.Valid() && wet.buffer.Valid()
    ensures AnalysisOf(options, dry, wet).Ok? <==>
      "dry" in options && "wet" in options && "outdir" in options
      && AbsReal(dry.sampleRate - wet.sampleRate) <= SampleRateTolerance
      && dry.buffer.NumChannels() > 0 && wet.buffer.NumChannels() > 0
    ensures "dry" !in options ==> AnalysisOf(options, dry, wet) == Err(OptionRejected(MissingOption("dry")))
    ensures "dry" in options && "wet" !in options ==> AnalysisOf(options, dry, wet) == Err(OptionRejected(MissingOption("wet")))
    ensures AnalysisOf(options, dry, wet) == Err(SampleRateMismatch) <==>
      "dry" in options && "wet" in options && "outdir" in options
      && AbsReal(dry.sampleRate - wet.sampleRate) > SampleRateTolerance
    ensures AnalysisOf(options, dry, wet) == Err(NoChannels) <==>
      "dry" in options && "wet" in options && "outdir" in options
      && AbsReal(dry.sampleRate - wet.sampleRate) <= SampleRateTolerance
      && (dry.buffer.NumChannels() == 0 || wet.buffer.NumChannels() == 0)
  {
  }

  /** A successful analysis works on min(dry, wet) channels and
      max(dry, wet) + |lag| samples, aligns dry by 0 and wet by -lag, and
      reports a lag in [-4096, 4096] that is 0 without auto-align. */
  lemma AnalyzeAlignment(options: OptionMap, dry: AudioData, wet: AudioData)
    requires dry.buffer.Valid() && wet.buffer.Valid()
    ensures AnalysisOf(options, dry, wet).Ok? ==>
      var a := AnalysisOf(options, dry, wet).value;
      var lag := a.report.detectedLatencySamples;
      && a.report.channels == Min(dry.buffer.NumChannels(), wet.buffer.NumChannels())
      && a.report.numSamples == Max(dry.buffer.numSamples, wet.buffer.numSamples) + Abs(lag)
      && -MaxLagSamples <= lag <= MaxLagSamples
      && ("auto-align" !in options ==> lag == 0)
      && a.dryAligned == Shifted(dry.buffer, a.report.channels, a.report.numSamples, 0)
      && a.wetAligned == Shifted(wet.buffer, a.report.channels, a.report.numSamples, -lag)
  {
    if AnalysisOf(options, dry, wet).Ok? {
      var channels := Min(dry.buffer.NumChannels(), wet.buffer.NumChannels());
      var lag := AlignmentLag(dry.buffer, wet.buffer, channels, Flag(options, "auto-align"));
      var doNull := Flag(options, "null");
      assert AnalysisOf(options, dry, wet) == Ok(Analysed(dry, wet, channels, lag, doNull));
      AnalysedContract(dry, wet, channels, lag, doNull);
    }
  }

  /** A successful analysis makes the delta wet - dry exactly when --null is
      given, flags a NaN or infinity exactly where one is, in the aligned wet
      buffer or in the delta, and exits with 2 exactly when a flag is set, 0
      otherwise (the report is produced either way). */
  lemma AnalyzeMeasurements(options: OptionMap, dry: AudioData, wet: AudioData)
    requires dry.buffer.Valid() && wet.buffer.Valid()
    ensures AnalysisOf(options, dry, wet).Ok? ==>
      var a := AnalysisOf(options, dry, wet).value;
      && (a.delta.Some? <==> "null" in options)
      && (a.delta.Some? ==> a.delta.value == Difference(a.wetAligned, a.dryAligned)
                            && a.report.deltaLevels == Some(LevelsOf(a.delta.value)))
      && a.report.wetLevels == LevelsOf(a.wetAligned)
      && a.report.correlation == CorrelationOf(a.dryAligned, a.wetAligned)
      && (a.report.hasNaNOrInfWet <==> !a.wetAligned.AllFinite())
      && (a.report.hasNaNOrInfDelta <==> a.delta.Some? && !a.delta.value.AllFinite())
      && (a.exitCode == 2 <==> a.report.hasNaNOrInfWet || a.report.hasNaNOrInfDelta)
      && (a.exitCode != 2 ==> a.exitCode == 0)
  {
    if AnalysisOf(options, dry, wet).Ok? {
      var channels := Min(dry.buffer.NumChannels(), wet.buffer.NumChannels());
      var doNull := Flag(options, "null");
      var lag := AlignmentLag(dry.buffer, wet.buffer, channels, Flag(options, "auto-align"));
      var targetSamples := Max(dry.buffer.numSamples, wet.buffer.numSamples) + Abs(lag);
      var dryAligned := Shifted(dry.buffer, channels, targetSamples, 0);
      var wetAligned := Shifted(wet.buffer, channels, targetSamples, -lag);
      assert AnalysisOf(options, dry, wet) == Ok(Analysed(dry, wet, channels, lag, doNull));
      AnalysedIsMeasuredShifted(dry, wet, channels, lag, doNull);
      MeasuredContract(dry.sampleRate, lag, dryAligned, wetAligned, doNull);
    }
  }

  /** A copy shifted by nothing into its own shape is the buffer itself. */
  lemma ShiftedByNothing(x: Buffer)
    requires x.Valid() && x.NumChannels() > 0
    ensures Shifted(x, x.NumChannels(), x.numSamples, 0) == x
  {
    var s := Shifted(x, x.NumChannels(), x.numSamples, 0);
    forall c | 0 <= c < x.NumChannels()
      ensures s.data[c] == x.data[c]
    {
    }
  }

  /** Analysing a finite file against itself without auto-align: nothing to
      align, a silent delta at the -160 dBFS floor when a null test is asked
      for, no NaN or infinity, exit code 0. */
  lemma AnalyzeAgainstItself(options: OptionMap, audio: AudioData)
    requires audio.buffer.Valid() && audio.buffer.AllFinite() && audio.buffer.NumChannels() > 0
    requires "dry" in options && "wet" in options && "outdir" in options && "auto-align" !in options
    ensures AnalysisOf(options, audio, audio).Ok?
    ensures var a := AnalysisOf(options, audio, audio).value;
      && a.report.detectedLatencySamples == 0
      && a.report.numSamples == audio.buffer.numSamples
      && a.wetAligned == audio.buffer && a.dryAligned == audio.buffer
      && !a.report.hasNaNOrInfWet && !a.report.hasNaNOrInfDelta
      && a.exitCode == 0
      && (a.delta.Some? ==> a.delta.value == Zeros(audio.buffer.NumChannels(), audio.buffer.numSamples)
                            && a.report.deltaLevels == Some(Silence))
  {
    var x := audio.buffer;
    ShiftedByNothing(x);
    DifferenceOfSelfIsSilent(x);
    var z := Zeros(x.NumChannels(), x.numSamples);
    assert Silent(z);
    LevelsFloorIffSilent(z);
  }
}
