/** The render subcommand (runRender, tools/vst3_harness/src/main.cpp): the
    dry input is fed through the plugin in fixed-size blocks after a warm-up,
    and the plugin's output is collected into the wet buffer.

    The plugin is a value: its parameter list, its side of bus negotiation,
    and its reset and processBlock as functions of an opaque state S. The
    processBlock function receives the parameter list the render set. */
module Render {
  import opened Wrappers
  import opened Samples
  import opened BufferOps
  import opened Options
  import opened CaseFile
  import opened PluginSetup

  datatype Plugin<!S> = Plugin(
    parameters: seq<Parameter>,
    bus: BusBehaviour,
    reset: S -> S,
    process: (seq<Parameter>, S, Buffer) -> (S, Buffer))

  /** processBlock works in place: it hands back a rectangular buffer of the
      shape it was given. */
  ghost predicate KeepsShape<S(!new)>(plugin: Plugin<S>)
  {
    forall params: seq<Parameter>, state: S, block: Buffer :: block.Valid() ==>
      plugin.process(params, state, block).1.Valid() && SameShape(plugin.process(params, state, block).1, block)
  }

  /** A plugin whose processBlock leaves the block and its state alone. */
  ghost predicate IsIdentity<S(!new)>(plugin: Plugin<S>)
  {
    forall params: seq<Parameter>, state: S, block: Buffer :: plugin.process(params, state, block) == (state, block)
  }

  lemma IdentityKeepsShape<S(!new)>(plugin: Plugin<S>)
    requires IsIdentity(plugin)
    ensures KeepsShape(plugin)
  {
    forall params: seq<Parameter>, state: S, block: Buffer | block.Valid()
      ensures plugin.process(params, state, block).1.Valid() && SameShape(plugin.process(params, state, block).1, block)
    {
      assert plugin.process(params, state, block) == (state, block);
    }
  }

  // ---------------------------------------------------------------------------
  // Blocks

  /** The number of passes of `for (pos = 0; pos < samples; pos += blockSize)`:
      samples / blockSize rounded up, none for zero or fewer samples. */
  function BlocksFor(samples: int, blockSize: nat): (n: nat)
    requires blockSize > 0
    ensures n * blockSize >= samples
    ensures n > 0 ==> (n - 1) * blockSize < samples
    decreases if samples <= 0 then 0 else samples
  {
    if samples <= 0 then 0 else 1 + BlocksFor(samples - blockSize, blockSize)
  }

  /** The length of the block starting at pos: a full block, or what is left. */
  function BlockLength(total: nat, blockSize: nat, pos: nat): (n: nat)
    requires pos < total && blockSize > 0
    ensures 1 <= n <= blockSize && pos + n <= total
    ensures n < blockSize ==> pos + n == total
  {
    Min(blockSize, total - pos)
  }

  lemma MultiplyMonotonic(a: nat, b: nat, m: nat)
    requires a <= b
    ensures a * m <= b * m
  {
  }

  lemma NextMultiple(k: nat, m: nat)
    ensures (k + 1) * m == k * m + m
  {
  }

  /** Every block the loop visits starts inside [0, total). */
  lemma BlockStartsInside(total: nat, blockSize: nat, k: nat)
    requires blockSize > 0 && k < BlocksFor(total, blockSize)
    ensures k * blockSize < total
  {
    MultiplyMonotonic(k, BlocksFor(total, blockSize) - 1, blockSize);
  }

  /** i lies in the whole block k exactly when k is i / blockSize. */
  lemma BlockOfSample(blockSize: nat, i: nat, k: nat)
    requires blockSize > 0
    ensures k * blockSize <= i < k * blockSize + blockSize <==> k == i / blockSize
  {
    var q := i / blockSize;
    assert q * blockSize <= i < q * blockSize + blockSize;
    NextMultiple(k, blockSize);
    NextMultiple(q, blockSize);
    if k < q {
      MultiplyMonotonic(k + 1, q, blockSize);
    } else if k > q {
      MultiplyMonotonic(q + 1, k, blockSize);
    }
  }

  /** The blocks [k * blockSize, k * blockSize + length) for k below
      BlocksFor(total, blockSize) cover every sample of [0, total) exactly
      once: sample i lies in block i / blockSize and in no other. */
  lemma BlocksPartition(total: nat, blockSize: nat, i: nat, k: nat)
    requires blockSize > 0 && i < total
    ensures i / blockSize < BlocksFor(total, blockSize)
    ensures k < BlocksFor(total, blockSize) ==>
      k * blockSize < total
      && (k * blockSize <= i < k * blockSize + BlockLength(total, blockSize, k * blockSize) <==> k == i / blockSize)
  {
    var q := i / blockSize;
    var n := BlocksFor(total, blockSize);
    assert q * blockSize <= i;
    if q >= n {
      MultiplyMonotonic(n, q, blockSize);
    }
    BlockOfSample(blockSize, i, k);
    if k < n {
      BlockStartsInside(total, blockSize, k);
    }
  }

  // ---------------------------------------------------------------------------
  // Warm-up

  /** The plugin's state after n calls of processBlock on the same block. */
  function Warmed<S>(plugin: Plugin<S>, params: seq<Parameter>, state: S, block: Buffer, n: nat): S
  {
    if n == 0 then state else plugin.process(params, Warmed(plugin, params, state, block, n - 1), block).0
  }

  /** The warm-up loop: one processBlock call on a cleared full-size block
      per blockSize samples of warm-up, rounded up. */
  method Warmup<S>(plugin: Plugin<S>, params: seq<Parameter>, state0: S,
                   processChannels: nat, blockSize: nat, warmupSamples: int)
    returns (state: S, calls: nat)
    requires blockSize > 0
    ensures calls == BlocksFor(warmupSamples, blockSize)
    ensures state == Warmed(plugin, params, state0, Zeros(processChannels, blockSize), calls)
  {
    state, calls := state0, 0;
    var pos := 0;
    while pos < warmupSamples
      invariant calls + BlocksFor(warmupSamples - pos, blockSize) == BlocksFor(warmupSamples, blockSize)
      invariant state == Warmed(plugin, params, state0, Zeros(processChannels, blockSize), calls)
      decreases warmupSamples - pos
    {
      assert BlocksFor(warmupSamples - pos, blockSize) == 1 + BlocksFor(warmupSamples - (pos + blockSize), blockSize);
      var ioBlock := Zeros(processChannels, blockSize);
      var processed := plugin.process(params, state, ioBlock);
      state := processed.0;
      calls := calls + 1;
      pos := pos + blockSize;
    }
  }

  // ---------------------------------------------------------------------------
  // The main loop

  /** One channel of the block handed to the plugin: the dry samples from
      pos, at most thisBlock of them and none past the end of the dry row,
      then silence. */
  function InputRow(dryRow: seq<Float>, blockSize: nat, pos: nat, thisBlock: nat): (r: seq<Float>)
    requires thisBlock <= blockSize
    ensures |r| == blockSize
    ensures forall j :: 0 <= j < blockSize ==>
      r[j] == if j < thisBlock && pos + j < |dryRow| then dryRow[pos + j] else Zero
  {
    var copyCount := Min(thisBlock, Max(0, |dryRow| - pos));
    if copyCount > 0 then RowCopied(ZeroRow(blockSize), 0, dryRow, pos, copyCount) else ZeroRow(blockSize)
  }

  /** The cleared ioBlock after the dry input of block pos was copied in:
      dry samples reach the plugin only on the working channels, only within
      the block's length, and only before the end of the dry input. */
  function InputBlock(dry: Buffer, processChannels: nat, blockSize: nat, pos: nat, thisBlock: nat): (b: Buffer)
    requires dry.Valid() && dry.NumChannels() <= processChannels && thisBlock <= blockSize
    ensures b.Valid() && b.NumChannels() == processChannels && b.numSamples == blockSize
    ensures forall c, j :: 0 <= c < processChannels && 0 <= j < blockSize ==>
      b.data[c][j] == if c < dry.NumChannels() && j < thisBlock && pos + j < dry.numSamples then dry.data[c][pos + j] else Zero
  {
    var rows := seq(processChannels, c requires 0 <= c < processChannels =>
                      if c < dry.NumChannels() then InputRow(dry.data[c], blockSize, pos, thisBlock) else ZeroRow(blockSize));
    assert forall c :: 0 <= c < processChannels ==> |rows[c]| == blockSize;
    assert forall c, j :: 0 <= c < dry.NumChannels() && 0 <= j < blockSize ==>
      rows[c][j] == InputRow(dry.data[c], blockSize, pos, thisBlock)[j];
    Buffer(blockSize, rows)
  }

  /** The first thisBlock samples of each of the wet buffer's channels in the
      processed block, written at pos. */
  function WrittenBack(wet: Buffer, out: Buffer, pos: nat, thisBlock: nat): (r: Buffer)
    requires wet.Valid() && out.Valid() && out.NumChannels() >= wet.NumChannels()
    requires thisBlock <= out.numSamples && pos + thisBlock <= wet.numSamples
    ensures r.Valid() && SameShape(r, wet)
    ensures forall c, i :: 0 <= c < wet.NumChannels() && 0 <= i < wet.numSamples ==>
      r.data[c][i] == if pos <= i < pos + thisBlock then out.data[c][i - pos] else wet.data[c][i]
  {
    Buffer(wet.numSamples, seq(wet.NumChannels(), c requires 0 <= c < wet.NumChannels() =>
                                 RowCopied(wet.data[c], pos, out.data[c], 0, thisBlock)))
  }

  /** What the block loop does from pos on to the plugin's state and the wet
      buffer. */
  function RenderFrom<S(!new)>(plugin: Plugin<S>, params: seq<Parameter>, state: S, dry: Buffer,
                         processChannels: nat, blockSize: nat, pos: nat, wet: Buffer): (r: (S, Buffer))
    requires KeepsShape(plugin)
    requires dry.Valid() && dry.NumChannels() <= processChannels && blockSize > 0
    requires wet.Valid() && wet.NumChannels() == dry.NumChannels()
    ensures r.1.Valid() && SameShape(r.1, wet)
    decreases wet.numSamples - pos
  {
    if pos >= wet.numSamples then (state, wet)
    else
      var thisBlock := BlockLength(wet.numSamples, blockSize, pos);
      var processed := plugin.process(params, state, InputBlock(dry, processChannels, blockSize, pos, thisBlock));
      RenderFrom(plugin, params, processed.0, dry, processChannels, blockSize, pos + blockSize,
                 WrittenBack(wet, processed.1, pos, thisBlock))
  }

  /** The block loop never goes back: samples before pos are returned as
      they are. */
  lemma {:induction false} RenderFromKeepsDone<S(!new)>(plugin: Plugin<S>, params: seq<Parameter>, state: S, dry: Buffer,
                         processChannels: nat, blockSize: nat, pos: nat, wet: Buffer, c: nat, i: nat)
    requires KeepsShape(plugin)
    requires dry.Valid() && dry.NumChannels() <= processChannels && blockSize > 0
    requires wet.Valid() && wet.NumChannels() == dry.NumChannels()
    requires c < wet.NumChannels() && i < pos && i < wet.numSamples
    ensures RenderFrom(plugin, params, state, dry, processChannels, blockSize, pos, wet).1.data[c][i] == wet.data[c][i]
    decreases wet.numSamples - pos
  {
    if pos < wet.numSamples {
      var thisBlock := BlockLength(wet.numSamples, blockSize, pos);
      var processed := plugin.process(params, state, InputBlock(dry, processChannels, blockSize, pos, thisBlock));
      var written := WrittenBack(wet, processed.1, pos, thisBlock);
      RenderFromKeepsDone(plugin, params, processed.0, dry, processChannels, blockSize, pos + blockSize, written, c, i);
    }
  }

  /** Each sample of the wet buffer is written once, by the block that covers
      it: the samples pos .. pos+thisBlock-1 of the result are the first
      thisBlock samples of the block the plugin made from the dry input at pos,
      in its state at pos, and no later block changes them. */
  lemma RenderFromWritesBlock<S(!new)>(plugin: Plugin<S>, params: seq<Parameter>, state: S, dry: Buffer,
                         processChannels: nat, blockSize: nat, pos: nat, wet: Buffer, out: Buffer, c: nat, i: nat)
    requires KeepsShape(plugin)
    requires dry.Valid() && dry.NumChannels() <= processChannels && blockSize > 0
    requires wet.Valid() && wet.NumChannels() == dry.NumChannels()
    requires c < wet.NumChannels() && pos <= i < wet.numSamples
    requires i < pos + BlockLength(wet.numSamples, blockSize, pos)
    requires out == plugin.process(params, state,
                      InputBlock(dry, processChannels, blockSize, pos, BlockLength(wet.numSamples, blockSize, pos))).1
    ensures out.Valid() && c < out.NumChannels() && i - pos < out.numSamples
    ensures RenderFrom(plugin, params, state, dry, processChannels, blockSize, pos, wet).1.data[c][i] == out.data[c][i - pos]
  {
    var thisBlock := BlockLength(wet.numSamples, blockSize, pos);
    var input := InputBlock(dry, processChannels, blockSize, pos, thisBlock);
    var next := plugin.process(params, state, input).0;
    assert out.Valid() && SameShape(out, input);
    var written := WrittenBack(wet, out, pos, thisBlock);
    RenderFromStep(plugin, params, state, dry, processChannels, blockSize, pos, wet, next, out, written);
    RenderFromKeepsDone(plugin, params, next, dry, processChannels, blockSize, pos + blockSize, written, c, i);
  }

  /** One pass of the block loop, named. */
  lemma RenderFromStep<S(!new)>(plugin: Plugin<S>, params: seq<Parameter>, state: S, dry: Buffer,
                         processChannels: nat, blockSize: nat, pos: nat, wet: Buffer, next: S, out: Buffer, written: Buffer)
    requires KeepsShape(plugin)
    requires dry.Valid() && dry.NumChannels() <= processChannels && blockSize > 0
    requires wet.Valid() && wet.NumChannels() == dry.NumChannels() && pos < wet.numSamples
    requires (next, out) == plugin.process(params, state,
                              InputBlock(dry, processChannels, blockSize, pos, BlockLength(wet.numSamples, blockSize, pos)))
    requires out.Valid() && out.NumChannels() >= wet.NumChannels() && BlockLength(wet.numSamples, blockSize, pos) <= out.numSamples
    requires written == WrittenBack(wet, out, pos, BlockLength(wet.numSamples, blockSize, pos))
    ensures RenderFrom(plugin, params, state, dry, processChannels, blockSize, pos, wet)
         == RenderFrom(plugin, params, next, dry, processChannels, blockSize, pos + blockSize, written)
  {
  }

  /** The main loop of runRender: for each block, clear ioBlock, copy the dry
      input in, process, and copy the block's length of each wet channel out. */
  method RenderBlocks<S(!new)>(plugin: Plugin<S>, params: seq<Parameter>, state0: S, dry: Buffer,
                         processChannels: nat, blockSize: nat, renderSamples: nat)
    returns (state: S, wet: Buffer)
    requires KeepsShape(plugin)
    requires dry.Valid() && dry.NumChannels() <= processChannels && blockSize > 0
    ensures wet.Valid() && wet.NumChannels() == dry.NumChannels() && wet.numSamples == renderSamples
    ensures (state, wet) == RenderFrom(plugin, params, state0, dry, processChannels, blockSize, 0,
                                       Zeros(dry.NumChannels(), renderSamples))
  {
    var channels := dry.NumChannels();
    state := state0;
    wet := Zeros(channels, renderSamples);
    var pos := 0;
    while pos < renderSamples
      invariant wet.Valid() && wet.NumChannels() == channels && wet.numSamples == renderSamples
      invariant RenderFrom(plugin, params, state, dry, processChannels, blockSize, pos, wet)
             == RenderFrom(plugin, params, state0, dry, processChannels, blockSize, 0, Zeros(channels, renderSamples))
      decreases renderSamples - pos
    {
      var thisBlock := Min(blockSize, renderSamples - pos);
      var ioBlock := Zeros(processChannels, blockSize);
      ghost var input := InputBlock(dry, processChannels, blockSize, pos, thisBlock);
      var channel := 0;
      while channel < Min(channels, processChannels)
        invariant channel <= channels
        invariant ioBlock.numSamples == blockSize && |ioBlock.data| == processChannels
        invariant forall c :: 0 <= c < channel ==> ioBlock.data[c] == input.data[c]
        invariant forall c :: channel <= c < processChannels ==> ioBlock.data[c] == ZeroRow(blockSize)
      {
        var remainingDry := Max(0, dry.numSamples - pos);
        var copyCount := Min(thisBlock, remainingDry);
        if copyCount > 0 {
          ioBlock := ioBlock.(data := ioBlock.data[channel := RowCopied(ioBlock.data[channel], 0, dry.data[channel], pos, copyCount)]);
        }
        assert ioBlock.data[channel] == input.data[channel];
        channel := channel + 1;
      }
      assert ioBlock.data == input.data;
      var processed := plugin.process(params, state, ioBlock);
      state := processed.0;
      var out := processed.1;
      ghost var before := wet;
      ghost var after := WrittenBack(before, out, pos, thisBlock);
      channel := 0;
      while channel < channels
        invariant channel <= channels
        invariant wet.numSamples == renderSamples && |wet.data| == channels
        invariant forall c :: 0 <= c < channel ==> wet.data[c] == after.data[c]
        invariant forall c :: channel <= c < channels ==> wet.data[c] == before.data[c]
      {
        wet := wet.(data := wet.data[channel := RowCopied(wet.data[channel], pos, out.data[channel], 0, thisBlock)]);
        channel := channel + 1;
      }
      assert wet.data == after.data;
      pos := pos + blockSize;
    }
  }

  /** Sample i of channel c of the dry input, or silence past its end. */
  function DryOrSilence(dry: Buffer, c: nat, i: nat): Float
    requires dry.Valid() && c < dry.NumChannels()
  {
    if i < dry.numSamples then dry.data[c][i] else Zero
  }

  /** Through a plugin that changes nothing, the block loop reproduces the
      dry input and pads it with silence. */
  lemma {:induction false} IdentityRenderFrom<S(!new)>(plugin: Plugin<S>, params: seq<Parameter>, state: S, dry: Buffer,
                                                 processChannels: nat, blockSize: nat, pos: nat, wet: Buffer)
    requires IsIdentity(plugin) && KeepsShape(plugin)
    requires dry.Valid() && dry.NumChannels() <= processChannels && blockSize > 0
    requires wet.Valid() && wet.NumChannels() == dry.NumChannels()
    requires forall c, i :: 0 <= c < wet.NumChannels() && 0 <= i < wet.numSamples ==>
      wet.data[c][i] == if i < pos then DryOrSilence(dry, c, i) else Zero
    ensures var out := RenderFrom(plugin, params, state, dry, processChannels, blockSize, pos, wet).1;
      forall c, i :: 0 <= c < wet.NumChannels() && 0 <= i < wet.numSamples ==> out.data[c][i] == DryOrSilence(dry, c, i)
    decreases wet.numSamples - pos
  {
    if pos < wet.numSamples {
      var thisBlock := BlockLength(wet.numSamples, blockSize, pos);
      var input := InputBlock(dry, processChannels, blockSize, pos, thisBlock);
      assert plugin.process(params, state, input) == (state, input);
      var next := WrittenBack(wet, input, pos, thisBlock);
      forall c, i | 0 <= c < wet.NumChannels() && 0 <= i < wet.numSamples
        ensures next.data[c][i] == if i < pos + blockSize then DryOrSilence(dry, c, i) else Zero
      {
        if pos <= i < pos + thisBlock {
          assert next.data[c][i] == input.data[c][i - pos];
        }
      }
      IdentityRenderFrom(plugin, params, state, dry, processChannels, blockSize, pos + blockSize, next);
    }
  }

  // ---------------------------------------------------------------------------
  // The whole subcommand

  datatype RenderSettings = RenderSettings(
    pluginPath: string, inputPath: string, outDir: string, casePath: string,
    sampleRate: int, blockSize: int, channels: int)

  /** The required options, looked up in order; the first one missing or
      not an integer is reported. */
  function RenderSettingsFrom(options: OptionMap): (r: Result<RenderSettings, OptionError>)
    ensures r.Ok? <==> "plugin" in options && "in" in options && "outdir" in options && "case" in options
                       && RequiredIntOption(options, "sr").Ok? && RequiredIntOption(options, "bs").Ok?
                       && RequiredIntOption(options, "ch").Ok?
    ensures r.Ok? ==> r.value.sampleRate == RequiredIntOption(options, "sr").value
                      && r.value.blockSize == RequiredIntOption(options, "bs").value
                      && r.value.channels == RequiredIntOption(options, "ch").value
  {
    var plugin := RequiredOption(options, "plugin");
    var input := RequiredOption(options, "in");
    var outDir := RequiredOption(options, "outdir");
    var casePath := RequiredOption(options, "case");
    var sampleRate := RequiredIntOption(options, "sr");
    var blockSize := RequiredIntOption(options, "bs");
    var channels := RequiredIntOption(options, "ch");
    if plugin.Err? then Err(plugin.error)
    else if input.Err? then Err(input.error)
    else if outDir.Err? then Err(outDir.error)
    else if casePath.Err? then Err(casePath.error)
    else if sampleRate.Err? then Err(sampleRate.error)
    else if blockSize.Err? then Err(blockSize.error)
    else if channels.Err? then Err(channels.error)
    else Ok(RenderSettings(plugin.value, input.value, outDir.value, casePath.value,
                           sampleRate.value, blockSize.value, channels.value))
  }

  datatype RenderError =
    | OptionRejected(optionError: OptionError)
    | SettingsNotPositive
    | CaseRejected(caseError: CaseError)
    | SampleRateMismatch
    | RenderLengthNotPositive
    | ConfigureFailed(configureError: ConfigureError)
    | ParameterNotFound(name: string)

  /** renderSamples: the case's renderSeconds at the sample rate, rounded,
      or else the whole dry input. */
  function RenderLength(renderCase: RenderCase, sampleRate: int, drySamples: nat): (n: int)
    ensures renderCase.renderSeconds.None? ==> n == drySamples
    ensures renderCase.renderSeconds.Some? ==>
      var exact := renderCase.renderSeconds.value * sampleRate as real;
      exact - 0.5 <= n as real <= exact + 0.5
  {
    if renderCase.renderSeconds.Some? then Round(renderCase.renderSeconds.value * sampleRate as real) else drySamples
  }

  /** warmupSamples: the case's warm-up at the sample rate, rounded. */
  function WarmupSamples(renderCase: RenderCase, sampleRate: int): (n: int)
    ensures var exact := sampleRate as real * renderCase.warmupMs as real / 1000.0;
      exact - 0.5 <= n as real <= exact + 0.5
    ensures sampleRate >= 0 && renderCase.warmupMs >= 0 ==> n >= 0
    ensures sampleRate > 0 && renderCase.warmupMs <= 0 ==> n <= 0
  {
    Round(sampleRate as real * renderCase.warmupMs as real / 1000.0)
  }

  /** processChannels: the widest of the requested channels and the plugin's
      input and output totals, and at least one. */
  function ProcessChannels(channels: nat, counts: ChannelCounts): (r: nat)
    ensures r >= 1 && r >= channels && r >= counts.inputs && r >= counts.outputs
    ensures r == 1 || r == channels || r == counts.inputs || r == counts.outputs
  {
    Max(Max(channels, counts.inputs), Max(counts.outputs, 1))
  }

  /** Everything before the loops, in the source's order; Ok carries what the
      loops need. */
  datatype Prepared = Prepared(
    settings: RenderSettings, renderCase: RenderCase, dryBuffer: Buffer, renderSamples: nat,
    params: seq<Parameter>, processChannels: nat)

  function Prepare<S>(options: OptionMap, caseRoot: Var, dry: AudioData, plugin: Plugin<S>): (r: Result<Prepared, RenderError>)
    requires dry.buffer.Valid()
    ensures r.Ok? ==> (r.value.dryBuffer.Valid() && r.value.dryBuffer.NumChannels() == r.value.settings.channels
      && r.value.settings.channels <= r.value.processChannels
      && r.value.settings.blockSize > 0 && r.value.renderSamples > 0)
    ensures r.Ok? ==> (RenderSettingsFrom(options).Ok? && r.value.settings == RenderSettingsFrom(options).value
      && r.value.dryBuffer == ChannelsCopied(dry.buffer, r.value.settings.channels))
  {
    var settings := RenderSettingsFrom(options);
    if settings.Err? then Err(OptionRejected(settings.error))
    else
      var s := settings.value;
      if s.sampleRate <= 0 || s.blockSize <= 0 || s.channels <= 0 then Err(SettingsNotPositive)
      else
        var renderCase := CaseOf(caseRoot);
        if renderCase.Err? then Err(CaseRejected(renderCase.error))
        else if AbsReal(dry.sampleRate - s.sampleRate as real) > SampleRateTolerance then Err(SampleRateMismatch)
        else
          var dryBuffer := ChannelsCopied(dry.buffer, s.channels);
          var renderSamples := RenderLength(renderCase.value, s.sampleRate, dryBuffer.numSamples);
          if renderSamples <= 0 then Err(RenderLengthNotPositive)
          else
            var counts := ConfigureForChannels(plugin.bus, s.channels);
            if counts.Err? then Err(ConfigureFailed(counts.error))
            else
              var applied := ApplyFrom(plugin.parameters, renderCase.value.params, 0);
              if applied.1.Some? then Err(ParameterNotFound(applied.1.value))
              else Ok(Prepared(s, renderCase.value, dryBuffer, renderSamples, applied.0,
                               ProcessChannels(s.channels, counts.value)))
  }

  /** The wet buffer runRender writes, or the reason it stops. */
  function RenderOutcome<S(!new)>(options: OptionMap, caseRoot: Var, dry: AudioData, plugin: Plugin<S>, state: S): (r: Result<Buffer, RenderError>)
    requires dry.buffer.Valid() && KeepsShape(plugin)
  {
    var prepared := Prepare(options, caseRoot, dry, plugin);
    if prepared.Err? then Err(prepared.error)
    else
      var p := prepared.value;
      var warmed := Warmed(plugin, p.params, plugin.reset(state), Zeros(p.processChannels, p.settings.blockSize),
                           BlocksFor(WarmupSamples(p.renderCase, p.settings.sampleRate), p.settings.blockSize));
      Ok(RenderFrom(plugin, p.params, warmed, p.dryBuffer, p.processChannels, p.settings.blockSize, 0,
                    Zeros(p.settings.channels, p.renderSamples)).1)
  }

  /** runRender up to writing wet.wav: options, case, input checks, plugin
      set-up, warm-up and the block loop. */
  method RunRender<S(!new)>(options: OptionMap, caseRoot: Var, dry: AudioData, plugin: Plugin<S>, state0: S)
    returns (result: Result<Buffer, RenderError>)
    requires dry.buffer.Valid() && KeepsShape(plugin)
    ensures result == RenderOutcome(options, caseRoot, dry, plugin, state0)
  {
    var settings := RenderSettingsFrom(options);
    if settings.Err? {
      return Err(OptionRejected(settings.error));
    }
    var s := settings.value;
    if s.sampleRate <= 0 || s.blockSize <= 0 || s.channels <= 0 {
      return Err(SettingsNotPositive);
    }
    var renderCase := ParseRenderCase(caseRoot);
    if renderCase.Err? {
      return Err(CaseRejected(renderCase.error));
    }
    if AbsReal(dry.sampleRate - s.sampleRate as real) > SampleRateTolerance {
      return Err(SampleRateMismatch);
    }
    var dryBuffer := CopyChannels(dry.buffer, s.channels);
    var renderSamples := RenderLength(renderCase.value, s.sampleRate, dryBuffer.numSamples);
    if renderSamples <= 0 {
      return Err(RenderLengthNotPositive);
    }
    var counts := ConfigureForChannels(plugin.bus, s.channels);
    if counts.Err? {
      return Err(ConfigureFailed(counts.error));
    }
    var params, missing := ApplyParameterMapByName(plugin.parameters, renderCase.value.params);
    if missing.Some? {
      return Err(ParameterNotFound(missing.value));
    }
    var state := plugin.reset(state0);
    var processChannels := ProcessChannels(s.channels, counts.value);
    var warmupSamples := WarmupSamples(renderCase.value, s.sampleRate);
    var calls;
    state, calls := Warmup(plugin, params, state, processChannels, s.blockSize, warmupSamples);
    var wet;
    state, wet := RenderBlocks(plugin, params, state, dryBuffer, processChannels, s.blockSize, renderSamples);
    return Ok(wet);
  }

  /** A render that gets past its checks yields channels x renderSamples
      samples; it gets past them exactly when the options, the case, the
      sample rate, the render length, the plugin's buses and every requested
      parameter are in order. */
  lemma RenderOutcomeContract<S(!new)>(options: OptionMap, caseRoot: Var, dry: AudioData, plugin: Plugin<S>, state: S)
    requires dry.buffer.Valid() && KeepsShape(plugin)
    ensures var r := RenderOutcome(options, caseRoot, dry, plugin, state);
      r.Ok? <==>
        RenderSettingsFrom(options).Ok?
        && (var s := RenderSettingsFrom(options).value;
            s.sampleRate > 0 && s.blockSize > 0 && s.channels > 0
            && CaseOf(caseRoot).Ok?
            && AbsReal(dry.sampleRate - s.sampleRate as real) <= SampleRateTolerance
            && RenderLength(CaseOf(caseRoot).value, s.sampleRate, dry.buffer.numSamples) > 0
            && ConfigureForChannels(plugin.bus, s.channels).Ok?
            && forall j :: 0 <= j < |CaseOf(caseRoot).value.params| ==>
                 FindParameter(plugin.parameters, CaseOf(caseRoot).value.params[j].key).Some?)
    ensures var r := RenderOutcome(options, caseRoot, dry, plugin, state);
      r.Ok? ==> (r.value.Valid() && r.value.NumChannels() == RenderSettingsFrom(options).value.channels
        && r.value.numSamples == RenderLength(CaseOf(caseRoot).value, RenderSettingsFrom(options).value.sampleRate, dry.buffer.numSamples))
  {
    var settings := RenderSettingsFrom(options);
    if settings.Ok? && CaseOf(caseRoot).Ok? {
      ApplyParameterMapContract(plugin.parameters, CaseOf(caseRoot).value.params);
    }
  }

  /** Through a plugin that passes audio through unchanged, the wet buffer is
      the dry input (on the requested channels) up to the render length and
      silence after it. */
  lemma IdentityRender<S(!new)>(options: OptionMap, caseRoot: Var, dry: AudioData, plugin: Plugin<S>, state: S)
    requires dry.buffer.Valid() && IsIdentity(plugin) && KeepsShape(plugin)
    requires RenderOutcome(options, caseRoot, dry, plugin, state).Ok?
    ensures var wet := RenderOutcome(options, caseRoot, dry, plugin, state).value;
      var dryBuffer := ChannelsCopied(dry.buffer, RenderSettingsFrom(options).value.channels);
      wet.Valid() && wet.NumChannels() == dryBuffer.NumChannels()
      && forall c, i :: 0 <= c < wet.NumChannels() && 0 <= i < wet.numSamples ==>
           wet.data[c][i] == if i < dryBuffer.numSamples then dryBuffer.data[c][i] else Zero
  {
    var p := Prepare(options, caseRoot, dry, plugin).value;
    var warmed := Warmed(plugin, p.params, plugin.reset(state), Zeros(p.processChannels, p.settings.blockSize),
                         BlocksFor(WarmupSamples(p.renderCase, p.settings.sampleRate), p.settings.blockSize));
    var wet0 := Zeros(p.settings.channels, p.renderSamples);
    assert RenderOutcome(options, caseRoot, dry, plugin, state).value
        == RenderFrom(plugin, p.params, warmed, p.dryBuffer, p.processChannels, p.settings.blockSize, 0, wet0).1;
    IdentityRenderFrom(plugin, p.params, warmed, p.dryBuffer, p.processChannels, p.settings.blockSize, 0, wet0);
  }
}
