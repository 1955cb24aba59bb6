# VST3 harness core in Dafny

This project models the offline plugin test harness
`tools/vst3_harness/src/main.cpp`. The harness has two subcommands:

- `render` feeds a dry WAV through a VST3 plugin, block by block, after a
  warm-up. The render case is read from a JSON file.
- `analyse` compares the wet rendering with the dry input. It can first align
  the two by a detected latency. It then reports levels and correlation,
  optionally a null-test delta, and whether any sample is NaN or infinite.

## Modules

- `Options` (options.dfy) covers the command line:
  - the `--key [value]` tokenizer;
  - required options and flags;
  - the strict integer parser.
- `Text` (text.dfy) covers three string operations:
  - ASCII lower-casing;
  - `getName(maximumLength)` truncation;
  - `std::string` ordering, which is the key order of `std::map`.
- `OrderedMap` (ordered_map.dfy) models `std::map<std::string, float>`. It is
  an ascending sequence of entries, with insert-or-assign and lookup.
- `CaseFile` (case_file.dfy) validates the render case once the JSON has been
  parsed: `parseNumericVar` and the rules of `parseRenderCaseFile`.
- `PluginSetup` (plugin_setup.dfy) covers `makeChannelSet`, the checks of
  `configurePluginForChannels`, and `applyParameterMapByName` over the
  plugin's parameter list.
- `Samples` (samples.dfy) defines the value types:
  - samples are `Float`: a finite value as an exact real, NaN, or an
    infinity with its sign, combined by the IEEE 754 rules;
  - buffers are rectangular channel-by-sample sequences;
  - `AudioData` is a buffer with its sample rate.
- `BufferOps` (buffer_ops.dfy) holds the buffer transforms: `copyChannels`,
  `containsNaNOrInf`, `makeMonoSum`, `shiftAndResize` and the null-test
  delta.
- `Latency` (latency.dfy) is `detectLatencyByCrossCorrelation`, the
  brute-force lag search.
- `Metrics` (metrics.dfy) holds `computeLevels` and `computeCorrelation`,
  with square roots and logarithms kept symbolic.
- `Render` (render.dfy) is `runRender`:
  - settings, case and input checks;
  - plugin set-up;
  - the warm-up loop;
  - the main block loop.
- `Analyze` (analyze.dfy) is `runAnalyze`:
  - option and input checks;
  - alignment;
  - metrics, null test and exit code.

## How the code is modelled

- **Loops.** Code that loops and updates variables in the source is a
  `method` with `while` loops. Each method is proved equal to a function of
  its inputs, and the lemmas about that function state what the source
  promises.
- **Buffers.** `juce::AudioBuffer` is a value, so a method fills a fresh
  buffer the way the source fills its result.
- **The plugin.** The plugin is a datatype with these parts:
  - its parameter list;
  - its side of the bus negotiation;
  - `reset`;
  - `processBlock`, as a function from (parameters, state, block) to
    (state, block).

## Notes on behaviour

**Identical signals.** `detectLatencyByCrossCorrelation(x, x, m)` is not 0
for every signal with energy.

- Lags are scanned from `-m` upwards.
- The best lag is replaced only on a strictly greater score.
- A constant signal scores the same at every lag, so the first lag scanned,
  `-m`, wins.

`Latency.ConstantSignalPicksMostNegativeLag` shows that `[1, 1]` against
itself with `m = 1` gives -1.

**Quiet signals.** `gainToDecibels(g, -160)` clamps with `jmax`, so a peak of
at most 1e-8 or a mean square of at most 1e-16 prints -160 dBFS, the same as
silence. `Metrics.QuietSampleReadsAsSilence` shows a single sample of 1e-9
doing so.

**NaN and infinite samples in the lag search.** The code skips a lag whose
score is NaN, because `score > bestScore` is false for NaN. A NaN or
infinite sample in the overlap always makes the dot product NaN or
infinite. The score is then NaN, so the model skips any lag with a
non-finite sum.

## Model

| member | source | states |
|---|---|---|
| Options.ParseOptions | tools/vst3_harness/src/main.cpp:60-95 | the token loop gives the same result as the recursive reading ParseFrom of the arguments from startIndex |
| Options.ParseFromOutcome | tools/vst3_harness/src/main.cpp:62-77 | parsing succeeds exactly when no token in key position lacks `--` or has an empty name; on failure the error names the first such token |
| Options.ParseFromContents | tools/vst3_harness/src/main.cpp:79-91 | the map holds exactly the keys that occur; each key maps to the value after its last occurrence: the next token when it does not start with `--`, otherwise "true" |
| Options.ParseOptionsContract | tools/vst3_harness/src/main.cpp:60-95 | from an empty map: success iff no bad token, the first bad token reported, key set and last-occurrence values |
| Options.RepeatedKeyKeepsLast | tools/vst3_harness/src/main.cpp:91 | `--sr 44100 --sr 48000` yields sr = 48000 |
| Options.FlagsReadTrue | tools/vst3_harness/src/main.cpp:79-89 | a key followed by another key or by nothing reads "true" |
| Options.NoDashes | tools/vst3_harness/src/main.cpp:55-58 | a token whose first character is not `-` is not an option key |
| Options.FlagMeansKeyGiven | tools/vst3_harness/src/main.cpp:152-155 | after a successful parse a flag is on iff its key occurs in key position, whatever value follows it |
| Options.FlagWithFalseValueIsOn | tools/vst3_harness/src/main.cpp:152-155 | `--null false` parses and turns the null flag on |
| Options.RequiredOption | tools/vst3_harness/src/main.cpp:116-130 | Ok iff the key is present, with its value; otherwise the missing-option error for that key |
| Options.RequiredIntOption | tools/vst3_harness/src/main.cpp:132-150 | Ok iff present and a strict integer within the int range; a missing key and an invalid integer give distinct errors naming the key |
| Options.ParseIntStrict | tools/vst3_harness/src/main.cpp:97-114 | an accepted value lies within [INT_MIN, INT_MAX] |
| Options.ParseDecimalRoundTrip | tools/vst3_harness/src/main.cpp:97-114 | every int written in decimal, with a minus sign when negative, parses back to itself |
| Options.LeadingSpaceIgnored | tools/vst3_harness/src/main.cpp:102 | stol skips leading white space, so it does not change the result |
| Options.TrailingCharacterRejected | tools/vst3_harness/src/main.cpp:103-104 | a trailing non-digit leaves endIndex short of the end and the token is rejected |
| Text.ToLower | tools/vst3_harness/src/main.cpp:470 | toLowerCase keeps the length and lower-cases each character on its own |
| Text.ToLowerIdempotent | tools/vst3_harness/src/main.cpp:355 | lower-cased names contain no upper-case letter, and lower-casing them again changes nothing |
| Text.Truncate | tools/vst3_harness/src/main.cpp:470 | getName(256) is a prefix of the name, at most 256 characters long, and the whole name when it is short enough |
| Text.LexLessIrreflexive | tools/vst3_harness/src/main.cpp:455 | std::string's operator< is irreflexive |
| Text.LexLessTransitive | tools/vst3_harness/src/main.cpp:455 | std::string's operator< is transitive |
| Text.LexLessTotal | tools/vst3_harness/src/main.cpp:455 | any two different strings are ordered one way or the other |
| Text.LexLessAsymmetric | tools/vst3_harness/src/main.cpp:455 | std::string's operator< is asymmetric |
| OrderedMap.Get | tools/vst3_harness/src/main.cpp:455 | a lookup finds a value iff the key is among the map's keys |
| OrderedMap.PutKeys | tools/vst3_harness/src/main.cpp:355 | insert-or-assign adds exactly the key to the key set |
| OrderedMap.PutAscending | tools/vst3_harness/src/main.cpp:355 | insert-or-assign keeps the entries strictly ascending, which is the map's iteration order |
| OrderedMap.GetPut | tools/vst3_harness/src/main.cpp:355 | after insert-or-assign the key reads the new value and every other key reads what it did before |
| CaseFile.ParseNumericVar | tools/vst3_harness/src/main.cpp:271-280 | int, int64, bool and finite double values are accepted, and nothing else; a bool reads 1.0 or 0.0 |
| CaseFile.Lookup | tools/vst3_harness/src/main.cpp:305-306 | a property is found iff one of that name exists, and the value found is that property's |
| CaseFile.Round | tools/vst3_harness/src/main.cpp:313 | std::round: within one half of x, ties away from zero, the sign kept |
| CaseFile.ParamProblem | tools/vst3_harness/src/main.cpp:342-353 | a parameter is accepted iff its value is numeric and in [0, 1]; otherwise the error names it |
| CaseFile.ParseRenderCase | tools/vst3_harness/src/main.cpp:282-360 | the validation steps give the same result as CaseOf |
| CaseFile.ParamsFromOutcome | tools/vst3_harness/src/main.cpp:336-356 | the params loop succeeds iff every property passes; it fails with the first failing one; on success the map is ascending and holds, per lower-cased name, the value of the last property with that name |
| CaseFile.LastValueFromProperty | tools/vst3_harness/src/main.cpp:355 | every stored value comes from a property whose lower-cased name is the key |
| CaseFile.CaseOfContract | tools/vst3_harness/src/main.cpp:298-357 | a case is accepted iff the root is an object, warmupMs is numeric and at least 0, renderSeconds is numeric and above 0, and params is an object of valid values; warmup then defaults to 50, renderSeconds is present iff given, and keys are lower-case with values in [0, 1]; a given warmupMs is the rounded number, a given renderSeconds the number given, and each key holds the value of the last parameter with that lower-cased name |
| CaseFile.FirstBadParamReported | tools/vst3_harness/src/main.cpp:337-353 | when warmup and renderSeconds pass, the first invalid parameter is the error reported |
| CaseFile.LaterCaseVariantWins | tools/vst3_harness/src/main.cpp:355 | two names differing only in case collapse to one key holding the later value |
| PluginSetup.MakeChannelSet | tools/vst3_harness/src/main.cpp:412-419 | one channel or fewer gives mono, two gives stereo, more give discrete channels; the set has max(1, channels) channels |
| PluginSetup.ConfigureForChannels | tools/vst3_harness/src/main.cpp:421-452 | fails for channels <= 0 and when the negotiated layout has no output channels; otherwise it returns the negotiated counts |
| PluginSetup.MatchName | tools/vst3_harness/src/main.cpp:470 | the name matched is the first min(\|name\|, 256) characters of the parameter name, each lower-cased, so it holds no upper-case letter |
| PluginSetup.FindFrom | tools/vst3_harness/src/main.cpp:464-477 | the index found is the first non-null parameter whose lower-cased getName(256) equals the key; when none is found, no parameter matches |
| PluginSetup.FindIgnoresValues | tools/vst3_harness/src/main.cpp:464-477 | setting values does not change which parameter a name finds |
| PluginSetup.ApplyParameterMapByName | tools/vst3_harness/src/main.cpp:454-487 | the nested loops give the same parameters and missing name as ApplyFrom |
| PluginSetup.ApplyFromOutcome | tools/vst3_harness/src/main.cpp:460-484 | from entry k on: success iff every later name matches, with all of them applied; otherwise the first unmatched name is reported, with the entries before it applied |
| PluginSetup.ApplyParameterMapContract | tools/vst3_harness/src/main.cpp:454-487 | parameter names and null slots are unchanged; the outcome is as in ApplyFromOutcome, from the first entry |
| PluginSetup.ExpectedIsLastMatch | tools/vst3_harness/src/main.cpp:473 | a parameter no request finds keeps its value; otherwise it holds the value of the last request that finds it |
| PluginSetup.DistinctNamesDistinctTargets | tools/vst3_harness/src/main.cpp:460-471 | two different keys of the map never set the same parameter |
| Samples.Add | tools/vst3_harness/src/main.cpp:600-602 | a sum is finite iff both operands are; a NaN operand gives NaN; finite operands give the exact sum |
| Samples.Mul | tools/vst3_harness/src/main.cpp:600-602 | a product is finite iff both operands are; a NaN operand gives NaN; finite operands give the exact product |
| Samples.Sub | tools/vst3_harness/src/main.cpp:887 | a difference is finite iff both operands are; a NaN operand gives NaN; finite operands give the exact difference |
| Samples.AbsFloat | tools/vst3_harness/src/main.cpp:540 | std::abs keeps finiteness and NaN, gives \|x\| for a finite x and +infinity for either infinity |
| Samples.CauchySchwarz | tools/vst3_harness/src/main.cpp:592-608 | over finite samples the squared dot product is at most the product of the two energies |
| Samples.EnergyNonNegative | tools/vst3_harness/src/main.cpp:592-603 | a sum of squares of finite samples is finite and at least 0 |
| Samples.EnergyZeroIffSilent | tools/vst3_harness/src/main.cpp:605 | the energy of finite samples is 0 iff every sample is 0 |
| Samples.Zeros | tools/vst3_harness/src/main.cpp:494-495 | a cleared buffer has the given shape and every sample 0 |
| Samples.RowCopied | tools/vst3_harness/src/main.cpp:799 | copyFrom replaces exactly count samples from the destination start with the source samples and keeps the rest |
| BufferOps.SourceChannel | tools/vst3_harness/src/main.cpp:502 | the source channel is the channel itself, or the last source channel for channels past the end |
| BufferOps.CopyChannels | tools/vst3_harness/src/main.cpp:489-507 | channels x source samples; channel c is source channel min(c, sourceChannels - 1); all zeros for a source without channels |
| BufferOps.ContainsNaNOrInf | tools/vst3_harness/src/main.cpp:509-522 | true iff some sample of the buffer is not finite |
| BufferOps.MakeMonoSum | tools/vst3_harness/src/main.cpp:553-571 | one sample per input sample, equal to the sum over channels of sample * (1 / channels), all zeros without channels |
| BufferOps.MonoSumOfCopiedMono | tools/vst3_harness/src/main.cpp:553-571 | a finite mono signal copied to any number of channels and downmixed again is unchanged |
| BufferOps.ShiftAndResize | tools/vst3_harness/src/main.cpp:621-645 | channels x targetSamples; sample i of channel c is source channel min(c, sourceChannels - 1) at i - shift when inside the source, else 0 |
| BufferOps.ShiftRoundTrip | tools/vst3_harness/src/main.cpp:621-645 | delaying by d into d extra samples and then shifting by -d into the original length gives back the source |
| BufferOps.NullDelta | tools/vst3_harness/src/main.cpp:883-888 | the delta has the wet buffer's shape and holds wet - dry per sample |
| BufferOps.DifferenceOfSelfIsSilent | tools/vst3_harness/src/main.cpp:883-888 | the delta of a finite buffer with itself is all zeros |
| Latency.Overlap | tools/vst3_harness/src/main.cpp:585-590 | when the overlap is positive every index read, dryStart + i and wetStart + i, is in bounds; it is positive iff both starts are inside their signals |
| Latency.LagScore | tools/vst3_harness/src/main.cpp:592-609 | a lag's score, the squared normalised correlation standing in for \|correlation\|, is at least 0 |
| Latency.OverlapSums | tools/vst3_harness/src/main.cpp:592-603 | the inner loop leaves the dot product and the two energies over the overlap |
| Latency.ScanUpTo | tools/vst3_harness/src/main.cpp:583-616 | the lag kept is 0 or one of the lags already scanned |
| Latency.DetectedLag | tools/vst3_harness/src/main.cpp:573-619 | the result lies in [-maxLag, maxLag] |
| Latency.ScanFindsFirstBest | tools/vst3_harness/src/main.cpp:583-616 | after scanning up to a lag: lag 0 and score -1 when no lag could be scored, otherwise the first scorable lag with the greatest score |
| Latency.DetectedLagIsFirstBest | tools/vst3_harness/src/main.cpp:573-619 | 0 when no lag in the window has a positive overlap and energy on both sides; otherwise a scorable lag whose score is at least every other's and strictly above every earlier lag's |
| Latency.DetectLatencyByCrossCorrelation | tools/vst3_harness/src/main.cpp:573-619 | the search loop gives DetectedLag, in [-maxLag, maxLag], and 0 when no lag can be scored |
| Latency.ConstantSignalPicksMostNegativeLag | tools/vst3_harness/src/main.cpp:611-615 | identical constant signals give the most negative lag, not 0, because ties keep the first lag scanned |
| Metrics.AmplitudeToDbfs | tools/vst3_harness/src/main.cpp:548 | a positive finite peak is reported as itself; the Floor branch (the `gain > 0` test fails) iff the peak does not compare greater than 0 (NaN, -infinity, 0 or less); +infinity dB iff the peak is +infinity |
| Metrics.PowerToDbfs | tools/vst3_harness/src/main.cpp:546-549 | a positive finite mean square is reported as itself; the Floor branch (the `gain > 0` test fails) iff it does not compare greater than 0 (its square root is then 0 or NaN); +infinity dB iff it is +infinity |
| Metrics.DivideByCount | tools/vst3_harness/src/main.cpp:546 | sumSquares / count by a positive count keeps finiteness, NaN and infinities, and divides a finite sum exactly |
| Metrics.PeakStep | tools/vst3_harness/src/main.cpp:540 | std::max(peak, \|value\|): a NaN sample leaves the peak as it was; finite values give the larger; an infinite sample makes it +infinity, which stays; a peak that is not NaN never becomes NaN |
| Metrics.ComputeLevels | tools/vst3_harness/src/main.cpp:524-551 | the guard and the peak and sum-of-squares loops give LevelsOf |
| Metrics.BufferPeakIsMaximum | tools/vst3_harness/src/main.cpp:534-543 | the peak of finite samples is at least 0, at least every \|sample\|, and equal to some \|sample\| unless it is 0 |
| Metrics.LevelsFloorIffSilent | tools/vst3_harness/src/main.cpp:524-551 | both levels take the Floor branch (the `gain > 0` test fails) iff the finite buffer is silent (no channels, no samples or all zeros); otherwise the peak is the largest \|sample\| |
| Metrics.PeakPrintsFloorIffQuiet | tools/vst3_harness/src/main.cpp:548 | the peak of a finite buffer prints as -160 dBFS, by the Floor branch or the jmax clamp, iff no sample exceeds 1e-8 in magnitude |
| Metrics.QuietSampleReadsAsSilence | tools/vst3_harness/src/main.cpp:546-549 | a single sample of 1e-9 is not silence, yet both its levels print as -160 dBFS |
| Metrics.RowPeakIgnoresNaN | tools/vst3_harness/src/main.cpp:537-541 | over a row the peak stays finite non-negative or +infinity, and equals the peak of the row with every NaN read as 0 |
| Metrics.BufferPeakIgnoresNaN | tools/vst3_harness/src/main.cpp:534-543 | the same over the channels: the buffer's peak is that of the buffer with every NaN read as 0 |
| Metrics.RowPeakInfinite | tools/vst3_harness/src/main.cpp:537-541 | once an infinite sample is seen the peak is +infinity |
| Metrics.BufferPeakInfinite | tools/vst3_harness/src/main.cpp:534-543 | a buffer with an infinite sample has a +infinity peak |
| Metrics.RowSquaresNaN | tools/vst3_harness/src/main.cpp:541 | a NaN start or a NaN sample makes the sum of squares NaN |
| Metrics.BufferSquaresNaN | tools/vst3_harness/src/main.cpp:534-543 | a buffer with a NaN sample has a NaN sum of squares |
| Metrics.RowSquaresInfinite | tools/vst3_harness/src/main.cpp:541 | without NaN the sum of squares stays finite non-negative or +infinity, and an infinite sample makes it +infinity |
| Metrics.BufferSquaresInfinite | tools/vst3_harness/src/main.cpp:534-543 | the same over the channels |
| Metrics.NonFiniteLevels | tools/vst3_harness/src/main.cpp:524-551 | the peak level is that of the buffer with NaN read as 0, and +infinity dB with an infinite sample; a NaN sample puts the rms at the -160 floor; an infinite sample without NaN gives a +infinity dB rms |
| Metrics.NaNExamples | tools/vst3_harness/src/main.cpp:524-551 | a lone NaN sample reads as silence (-160, -160); NaN beside 0.5 gives a 0.5 peak and a -160 rms |
| Metrics.ComputeCorrelation | tools/vst3_harness/src/main.cpp:647-672 | the guards and the accumulation loop give CorrelationOf |
| Metrics.MonoCorrelation | tools/vst3_harness/src/main.cpp:652-671 | a normalised result has both energies above 0 |
| Metrics.CorrelationGuards | tools/vst3_harness/src/main.cpp:652-671 | for finite signals the guards' early 0 (Uncorrelated) is returned iff the lengths differ, the signals are empty or one is all zeros; otherwise the result is dot / sqrt(energyA * energyB) over the whole signals, which can itself be 0 for orthogonal signals |
| Metrics.CorrelationAtMostOne | tools/vst3_harness/src/main.cpp:671 | a reported correlation satisfies dot² <= energyA * energyB, that is \|correlation\| <= 1 |
| Metrics.SelfCorrelationIsOne | tools/vst3_harness/src/main.cpp:647-672 | a finite signal with a non-zero sample has correlation 1 with itself |
| Metrics.CorrelationWithSilenceIsZero | tools/vst3_harness/src/main.cpp:668-669 | any signal against silence of the same length gives 0 |
| Render.IdentityKeepsShape | tools/vst3_harness/src/main.cpp:803 | a plugin that leaves the block alone hands back a block of the same shape |
| Render.BlocksFor | tools/vst3_harness/src/main.cpp:777 | the number of loop passes is samples / blockSize rounded up, and 0 for no samples |
| Render.BlockLength | tools/vst3_harness/src/main.cpp:790 | each block has between 1 and blockSize samples and ends within the render length |
| Render.BlockStartsInside | tools/vst3_harness/src/main.cpp:788 | every block the loop visits starts inside [0, renderSamples) |
| Render.BlocksPartition | tools/vst3_harness/src/main.cpp:788-790 | sample i lies in block i / blockSize and in no other, so the blocks cover [0, renderSamples) exactly once |
| Render.Warmup | tools/vst3_harness/src/main.cpp:774-782 | processBlock is called ceil(warmupSamples / blockSize) times, each time on a cleared full-size block |
| Render.InputRow | tools/vst3_harness/src/main.cpp:795-800 | a block row holds dry sample pos + j only for j < thisBlock and pos + j < drySamples; every other sample is 0 |
| Render.InputBlock | tools/vst3_harness/src/main.cpp:791-801 | the block has processChannels x blockSize samples; dry input reaches only the working channels, within the block, before the end of the dry input |
| Render.WrittenBack | tools/vst3_harness/src/main.cpp:806-810 | the wet buffer takes the first thisBlock samples of each of its channels from the processed block, at pos, and keeps the rest |
| Render.RenderFrom | tools/vst3_harness/src/main.cpp:788-811 | the block loop keeps the wet buffer's shape |
| Render.RenderFromKeepsDone | tools/vst3_harness/src/main.cpp:788-811 | the loop from pos on never changes a wet sample before pos |
| Render.RenderFromWritesBlock | tools/vst3_harness/src/main.cpp:788-811 | for any plugin that keeps the block's shape, wet samples pos .. pos+thisBlock-1 end up as the block's output at offset i - pos, where the block is made from the dry input at pos in the plugin's state at pos; no later block changes them |
| Render.RenderBlocks | tools/vst3_harness/src/main.cpp:784-811 | the main loop gives RenderFrom, starting from a cleared channels x renderSamples wet buffer |
| Render.IdentityRenderFrom | tools/vst3_harness/src/main.cpp:788-811 | through a plugin that changes nothing, each wet sample is the dry sample at the same index, or 0 past the dry input |
| Render.RenderSettingsFrom | tools/vst3_harness/src/main.cpp:713-722 | the settings are read iff plugin, in, outdir and case are present and sr, bs and ch are strict integers, with those values |
| Render.RenderLength | tools/vst3_harness/src/main.cpp:746-750 | the dry length without renderSeconds; otherwise within one half of renderSeconds * sampleRate |
| Render.WarmupSamples | tools/vst3_harness/src/main.cpp:774-775 | within one half of sampleRate * warmupMs / 1000; not negative for a non-negative rate and warm-up |
| Render.ProcessChannels | tools/vst3_harness/src/main.cpp:770 | processChannels is the greatest of channels, the input total, the output total and 1 |
| Render.Prepare | tools/vst3_harness/src/main.cpp:724-770 | once every check passes: the settings read from the options, the dry input copied to the requested channels, channels <= processChannels, a positive block size and a positive render length |
| Render.RunRender | tools/vst3_harness/src/main.cpp:702-811 | runRender up to writing wet.wav gives RenderOutcome |
| Render.RenderOutcomeContract | tools/vst3_harness/src/main.cpp:713-811 | a render succeeds iff the settings are valid and positive, the case is valid, the sample rate matches within 1e-6, the render length is positive, the buses leave output channels and every requested parameter exists; the wet buffer is then channels x renderSamples |
| Render.IdentityRender | tools/vst3_harness/src/main.cpp:746-811 | with a plugin that changes nothing, the wet buffer is the dry input copied to the requested channels up to the render length, and silence after it |
| Analyze.AlignmentLag | tools/vst3_harness/src/main.cpp:862-868 | the lag lies in [-4096, 4096] and is 0 without auto-align |
| Analyze.Align | tools/vst3_harness/src/main.cpp:862-874 | the lag is detected between the mono downmixes only when auto-align is on; dry is shifted by 0 and wet by -lag into max(dry, wet) + \|lag\| samples |
| Analyze.NullTest | tools/vst3_harness/src/main.cpp:883-891 | the delta is wet - dry, with its levels and NaN/Inf flag |
| Analyze.Measure | tools/vst3_harness/src/main.cpp:875-891 | the metrics, the null test and the exit code of the aligned pair give Measured |
| Analyze.Analyse | tools/vst3_harness/src/main.cpp:862-891 | alignment followed by the measurements gives Analysed at the detected lag |
| Analyze.RunAnalyze | tools/vst3_harness/src/main.cpp:826-891 | runAnalyze up to writing its files gives AnalysisOf |
| Analyze.MeasuredContract | tools/vst3_harness/src/main.cpp:875-933 | the report describes the wet buffer's shape and the lag; a delta wet - dry, with its levels, exists iff a null test was asked for; each flag is set iff its buffer has a non-finite sample; the exit code is 2 iff a flag is set, else 0 |
| Analyze.AnalysedContract | tools/vst3_harness/src/main.cpp:870-874 | once the checks pass, the report carries the lag, channels and max(dry, wet) + \|lag\| samples; dry is aligned by 0 and wet by -lag |
| Analyze.AnalyzeAccepts | tools/vst3_harness/src/main.cpp:833-860 | an analysis goes ahead iff dry, wet and outdir are given, the sample rates agree within 1e-6 and both files have a channel; the first failing check names the error |
| Analyze.AnalyzeAlignment | tools/vst3_harness/src/main.cpp:858-874 | channels = min(dry, wet); length = max(dry, wet) + \|lag\|; the lag is in [-4096, 4096] and 0 without auto-align; dry is shifted by 0 and wet by -lag |
| Analyze.AnalyzeMeasurements | tools/vst3_harness/src/main.cpp:875-933 | a delta wet - dry exists iff `--null` is given; the levels and correlation are those of the aligned pair; each NaN/Inf flag is set iff its buffer has a non-finite sample; the exit code is 2 iff a flag is set, else 0 |
| Analyze.ShiftedByNothing | tools/vst3_harness/src/main.cpp:621-645 | shifting by 0 into the buffer's own shape gives back the buffer |
| Analyze.AnalyzeAgainstItself | tools/vst3_harness/src/main.cpp:826-937 | a finite file analysed against itself without auto-align: lag 0, buffers unchanged, no NaN/Inf, exit code 0, and a silent delta at the floor when a null test is asked for |

## Left out

- **File I/O.** These functions are left out: `readAudioFile`, `writeWavFile`,
  `ensureDirectory`, `resolvePath`, the writing of metrics.json and the
  console messages. The dry and wet audio are parameters of the pipelines.
  The model stops where the files would be written, so a failure to write is
  not modelled.
- **JSON.** `juce::JSON::parse` is left out. The render case starts from the
  parsed value (`CaseFile.Var`). A case file that is missing or unreadable is
  not modelled.
- **Plugin loading.** `loadVst3Description` and `createVst3Instance` are
  library calls into the VST3 host. Their failure is not modelled.
- **Bus negotiation.** The negotiation inside `configurePluginForChannels`
  (`enableAllBuses`, `setBusesLayout`, `disableNonMainBuses`) is host
  behaviour. It is an input: `BusBehaviour` says whether the layout is
  accepted and which channel counts result.
- **Host calls.** These are calls into the plugin whose effects the model
  does not see: `setRateAndBufferSizeDetails`, `prepareToPlay`,
  `releaseResources` and the MIDI buffer.
- **Parameter values.** `setValueNotifyingHost` stores the requested value
  unchanged; any quantisation inside a plugin is not modelled.
- **Floating point.**
  - Finite samples are exact reals.
  - NaN and the signed infinities are values of their own, with the IEEE
    rules for +, -, *, std::abs and <. A NaN sample therefore leaves the peak
    as it was (`std::max` compares false), and a NaN mean square gives the
    -160 floor (`gainToDecibels` tests gain > 0).
  - Float rounding, overflow, and the float/double casts are not modelled.
    That includes storing the parameter value as `float`.
  - Square roots and logarithms stay symbolic: a level is reported as the
    amplitude or mean square it is computed from, and a correlation as
    (dot, energyA, energyB).
  - The lag search compares squared scores, which orders lags the same way
    for exact reals.
- Metrics.LevelsOf / Metrics.ComputeLevels: a level is the symbolic `AmplitudeDb`
  or `PowerDb` value, not the printed number. Values of at most 1e-8 (peak) or
  1e-16 (mean square) also print as -160 because of the `jmax` clamp in
  `gainToDecibels`. `Metrics.PrintsFloor` says which levels print -160, but
  the decibel numbers themselves are not computed.
- CaseFile.Round: the `static_cast<int>` of the rounded value is not bounded
  to the int range, because out-of-range casts are undefined behaviour in
  the source.
- Render.RenderLength and Render.WarmupSamples use the same unbounded `Round`
  for `renderSamples` and `warmupSamples`.
- Options.ParseIntStrict: only the grammar used by `std::stol` base 10 is
  modelled: optional white space, an optional sign, then digits. The
  `long`-range overflow exception of `stol` is covered by the int-range
  check.
- Text.ToLower: only ASCII letters are lower-cased. `juce::String::toLowerCase`
  also folds other Unicode letters.
- **Not in the core.** These parts of the program are left out:
  - `runDumpParams` only prints the parameter list;
  - `printUsage` and `main` are console text and dispatch on the subcommand;
  - scripts/gen_test_wavs.py is a test-data generator;
  - Source/PluginProcessor.cpp and the editor sources are a pass-through
    plugin shell and its GUI.
