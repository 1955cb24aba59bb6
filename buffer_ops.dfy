/** Channel remapping, the finiteness scan, the mono downmix, shift-and-resize
    and the null-test difference (tools/vst3_harness/src/main.cpp). */
module BufferOps {
  import opened Samples

  /** The source channel read for output channel `channel`: the last source
      channel is repeated when more channels are asked for than exist. */
  function SourceChannel(channel: nat, sourceChannels: nat): (r: nat)
    requires sourceChannels > 0
    ensures r < sourceChannels
    ensures r == channel || (channel >= sourceChannels && r == sourceChannels - 1)
  {
    if channel < sourceChannels - 1 then channel else sourceChannels - 1
  }

  // ---------------------------------------------------------------------------
  // copyChannels

  /** The buffer copyChannels returns, as a value. */
  function ChannelsCopied(source: Buffer, channels: nat): (r: Buffer)
    requires source.Valid()
    ensures r.Valid() && r.NumChannels() == channels && r.numSamples == source.numSamples
  {
    if source.NumChannels() == 0 then Zeros(channels, source.numSamples)
    else Buffer(source.numSamples,
                seq(channels, c requires 0 <= c < channels => source.data[SourceChannel(c, source.NumChannels())]))
  }

  /** copyChannels: a cleared `channels` x `source.numSamples` buffer, then one
      whole-channel copy per output channel. */
  method CopyChannels(source: Buffer, channels: nat) returns (result: Buffer)
    requires source.Valid()
    ensures result.Valid() && result.NumChannels() == channels && result.numSamples == source.numSamples
    ensures forall c, i :: 0 <= c < channels && 0 <= i < source.numSamples ==>
      result.data[c][i] == if source.NumChannels() == 0 then Zero
                           else source.data[SourceChannel(c, source.NumChannels())][i]
    ensures result == ChannelsCopied(source, channels)
  {
    var sourceChannels := source.NumChannels();
    result := Zeros(channels, source.numSamples);
    if sourceChannels <= 0 {
      return;
    }
    var channel := 0;
    while channel < channels
      invariant 0 <= channel <= channels
      invariant result.numSamples == source.numSamples && |result.data| == channels
      invariant forall c :: 0 <= c < channel ==> result.data[c] == source.data[SourceChannel(c, sourceChannels)]
      invariant forall c :: channel <= c < channels ==> result.data[c] == ZeroRow(source.numSamples)
    {
      result := result.(data := result.data[channel := source.data[SourceChannel(channel, sourceChannels)]]);
      channel := channel + 1;
    }
  }

  // ---------------------------------------------------------------------------
  // containsNaNOrInf

  /** containsNaNOrInf: true exactly when some sample is NaN or infinite. */
  method ContainsNaNOrInf(buffer: Buffer) returns (found: bool)
    requires buffer.Valid()
    ensures found <==> exists c, i :: 0 <= c < buffer.NumChannels() && 0 <= i < buffer.numSamples
                                      && !buffer.data[c][i].Finite?
    ensures found == !buffer.AllFinite()
  {
    var channel := 0;
    while channel < buffer.NumChannels()
      invariant 0 <= channel <= buffer.NumChannels()
      invariant forall c, i :: 0 <= c < channel && 0 <= i < buffer.numSamples ==> buffer.data[c][i].Finite?
    {
      var i := 0;
      while i < buffer.numSamples
        invariant 0 <= i <= buffer.numSamples
        invariant forall c, j :: 0 <= c < channel && 0 <= j < buffer.numSamples ==> buffer.data[c][j].Finite?
        invariant forall j :: 0 <= j < i ==> buffer.data[channel][j].Finite?
      {
        if !buffer.data[channel][i].Finite? {
          return true;
        }
        i := i + 1;
      }
      channel := channel + 1;
    }
    return false;
  }

  // ---------------------------------------------------------------------------
  // makeMonoSum

  /** The per-channel weight 1/channels. */
  function Scale(channels: nat): Float
    requires channels > 0
  {
    Finite(1.0 / channels as real)
  }

  /** mono[i] after the first `k` channels have been added in: 0 + x0*s + x1*s + ... */
  function ColumnSum(buffer: Buffer, i: nat, k: nat): Float
    requires buffer.Valid() && i < buffer.numSamples && 0 < buffer.NumChannels() && k <= buffer.NumChannels()
  {
    if k == 0 then Zero
    else Add(ColumnSum(buffer, i, k - 1), Mul(buffer.data[k - 1][i], Scale(buffer.NumChannels())))
  }

  /** The mono downmix as a value: the mean over channels of each sample,
      or numSamples zeros when there is no channel. */
  function MonoSum(buffer: Buffer): (mono: seq<Float>)
    requires buffer.Valid()
    ensures |mono| == buffer.numSamples
  {
    if buffer.NumChannels() == 0 then ZeroRow(buffer.numSamples)
    else seq(buffer.numSamples, i requires 0 <= i < buffer.numSamples => ColumnSum(buffer, i, buffer.NumChannels()))
  }

  /** makeMonoSum: channel by channel, each sample scaled by 1/channels is added
      into the mono vector. */
  method MakeMonoSum(buffer: Buffer) returns (mono: seq<Float>)
    requires buffer.Valid()
    ensures |mono| == buffer.numSamples
    ensures mono == MonoSum(buffer)
  {
    var channels := buffer.NumChannels();
    var numSamples := buffer.numSamples;
    mono := ZeroRow(numSamples);
    if channels <= 0 || numSamples <= 0 {
      return;
    }
    var scale := Scale(channels);
    var channel := 0;
    while channel < channels
      invariant 0 <= channel <= channels
      invariant |mono| == numSamples
      invariant forall j :: 0 <= j < numSamples ==> mono[j] == ColumnSum(buffer, j, channel)
    {
      var i := 0;
      while i < numSamples
        invariant 0 <= i <= numSamples
        invariant |mono| == numSamples
        invariant forall j :: 0 <= j < i ==> mono[j] == ColumnSum(buffer, j, channel + 1)
        invariant forall j :: i <= j < numSamples ==> mono[j] == ColumnSum(buffer, j, channel)
      {
        mono := mono[i := Add(mono[i], Mul(buffer.data[channel][i], scale))];
        i := i + 1;
      }
      channel := channel + 1;
    }
  }

  /** Summing k copies of the same finite sample with weight 1/n gives k/n of it. */
  lemma {:induction false} ColumnSumOfCopies(buffer: Buffer, i: nat, k: nat, x: real)
    requires buffer.Valid() && i < buffer.numSamples && 0 < buffer.NumChannels() && k <= buffer.NumChannels()
    requires forall c :: 0 <= c < buffer.NumChannels() ==> buffer.data[c][i] == Finite(x)
    ensures ColumnSum(buffer, i, k) == Finite(k as real * x / buffer.NumChannels() as real)
  {
    if k > 0 {
      ColumnSumOfCopies(buffer, i, k - 1, x);
      OneMoreShare((k - 1) as real, x, buffer.NumChannels() as real);
    }
  }

  lemma OneMoreShare(a: real, x: real, n: real)
    requires n > 0.0
    ensures a * x / n + x * (1.0 / n) == (a + 1.0) * x / n
  {
  }

  /** The downmix of a buffer whose channels all hold the same finite signal is
      that signal: copying a mono source to k channels and averaging them back
      gives the source. */
  lemma MonoSumOfCopiedMono(row: seq<Float>, k: nat)
    requires k > 0
    requires forall i :: 0 <= i < |row| ==> row[i].Finite?
    ensures MonoSum(ChannelsCopied(Buffer(|row|, [row]), k)) == row
  {
    var b := ChannelsCopied(Buffer(|row|, [row]), k);
    forall i | 0 <= i < |row|
      ensures MonoSum(b)[i] == row[i]
    {
      ColumnSumOfCopies(b, i, k, row[i].value);
    }
  }

  // ---------------------------------------------------------------------------
  // shiftAndResize

  /** Sample i of output channel c after shifting by `shift`: the source sample
      at i - shift of the remapped channel, or silence outside the source. */
  function ShiftedSample(source: Buffer, c: nat, i: int, shift: int): Float
    requires source.Valid() && source.NumChannels() > 0
  {
    var k := i - shift;
    if 0 <= k < source.numSamples then source.data[SourceChannel(c, source.NumChannels())][k] else Zero
  }

  /** The buffer shiftAndResize returns, as a value. */
  function Shifted(source: Buffer, channels: nat, targetSamples: nat, shift: int): (r: Buffer)
    requires source.Valid()
    requires channels > 0 ==> source.NumChannels() > 0
    ensures r.Valid() && r.NumChannels() == channels && r.numSamples == targetSamples
  {
    if channels == 0 then Zeros(0, targetSamples)
    else Buffer(targetSamples,
                seq(channels, c requires 0 <= c < channels =>
                      seq(targetSamples, i requires 0 <= i < targetSamples => ShiftedSample(source, c, i, shift))))
  }

  /** shiftAndResize: a cleared channels x targetSamples buffer; sample i of
      channel c takes source sample i - shift of channel min(c, sourceChannels-1)
      whenever that index lies inside the source. The source must have a
      channel whenever one is asked for (the source reads channel -1 otherwise). */
  method ShiftAndResize(source: Buffer, channels: nat, targetSamples: nat, shift: int) returns (result: Buffer)
    requires source.Valid()
    requires channels > 0 ==> source.NumChannels() > 0
    ensures result.Valid() && result.NumChannels() == channels && result.numSamples == targetSamples
    ensures forall c, i :: 0 <= c < channels && 0 <= i < targetSamples ==>
      result.data[c][i] == if 0 <= i - shift < source.numSamples
                           then source.data[SourceChannel(c, source.NumChannels())][i - shift]
                           else Zero
    ensures result == Shifted(source, channels, targetSamples, shift)
  {
    result := Zeros(channels, targetSamples);
    var channel := 0;
    while channel < channels
      invariant 0 <= channel <= channels
      invariant result.numSamples == targetSamples && |result.data| == channels
      invariant forall c :: 0 <= c < channels ==> |result.data[c]| == targetSamples
      invariant forall c, i :: 0 <= c < channel && 0 <= i < targetSamples ==>
        result.data[c][i] == ShiftedSample(source, c, i, shift)
      invariant forall c :: channel <= c < channels ==> result.data[c] == ZeroRow(targetSamples)
    {
      var sourceChannel := SourceChannel(channel, source.NumChannels());
      var dest := result.data[channel];
      var i := 0;
      while i < targetSamples
        invariant 0 <= i <= targetSamples
        invariant |dest| == targetSamples
        invariant forall j :: 0 <= j < i ==> dest[j] == ShiftedSample(source, channel, j, shift)
        invariant forall j :: i <= j < targetSamples ==> dest[j] == Zero
      {
        var sourceIndex := i - shift;
        if 0 <= sourceIndex < source.numSamples {
          dest := dest[i := source.data[sourceChannel][sourceIndex]];
        }
        i := i + 1;
      }
      result := result.(data := result.data[channel := dest]);
      channel := channel + 1;
    }
    if channels > 0 {
      var spec := Shifted(source, channels, targetSamples, shift);
      forall c | 0 <= c < channels
        ensures result.data[c] == spec.data[c]
      {
      }
    }
  }

  /** Delaying by d samples (padding to n + d) and then shifting back by -d to
      length n gives the original buffer: delay compensation undoes a pure delay. */
  lemma ShiftRoundTrip(source: Buffer, delay: nat)
    requires source.Valid() && source.NumChannels() > 0
    ensures Shifted(Shifted(source, source.NumChannels(), source.numSamples + delay, delay),
                    source.NumChannels(), source.numSamples, -(delay as int)) == source
  {
    var n := source.NumChannels();
    var delayed := Shifted(source, n, source.numSamples + delay, delay);
    var back := Shifted(delayed, n, source.numSamples, -(delay as int));
    forall c | 0 <= c < n
      ensures back.data[c] == source.data[c]
    {
      assert SourceChannel(c, n) == c;
    }
  }

  // ---------------------------------------------------------------------------
  // The null-test difference

  /** wet - dry, sample by sample, over the channels of `wet`. */
  function Difference(wet: Buffer, dry: Buffer): (r: Buffer)
    requires wet.Valid() && dry.Valid()
    requires dry.NumChannels() >= wet.NumChannels() && dry.numSamples == wet.numSamples
    ensures r.Valid() && r.NumChannels() == wet.NumChannels() && r.numSamples == wet.numSamples
  {
    Buffer(wet.numSamples,
           seq(wet.NumChannels(), c requires 0 <= c < wet.NumChannels() =>
                 seq(wet.numSamples, i requires 0 <= i < wet.numSamples => Sub(wet.data[c][i], dry.data[c][i]))))
  }

  /** The delta of runAnalyze: a copy of the wet buffer, then, per channel,
      the dry channel added in with gain -1. */
  method NullDelta(wet: Buffer, dry: Buffer) returns (delta: Buffer)
    requires wet.Valid() && dry.Valid()
    requires dry.NumChannels() >= wet.NumChannels() && dry.numSamples == wet.numSamples
    ensures delta.Valid() && delta.NumChannels() == wet.NumChannels() && delta.numSamples == wet.numSamples
    ensures forall c, i :: 0 <= c < wet.NumChannels() && 0 <= i < wet.numSamples ==>
      delta.data[c][i] == Sub(wet.data[c][i], dry.data[c][i])
    ensures delta == Difference(wet, dry)
  {
    delta := wet;
    var channel := 0;
    while channel < delta.NumChannels()
      invariant 0 <= channel <= wet.NumChannels()
      invariant delta.numSamples == wet.numSamples && |delta.data| == wet.NumChannels()
      invariant forall c :: 0 <= c < channel ==> delta.data[c] == Difference(wet, dry).data[c]
      invariant forall c :: channel <= c < wet.NumChannels() ==> delta.data[c] == wet.data[c]
    {
      var row := seq(wet.numSamples, i requires 0 <= i < wet.numSamples =>
                       Add(delta.data[channel][i], Mul(Finite(-1.0), dry.data[channel][i])));
      assert forall i :: 0 <= i < wet.numSamples ==> row[i] == Sub(wet.data[channel][i], dry.data[channel][i]);
      delta := delta.(data := delta.data[channel := row]);
      channel := channel + 1;
    }
  }

  /** Subtracting a finite buffer from itself leaves exact silence. */
  lemma DifferenceOfSelfIsSilent(x: Buffer)
    requires x.Valid() && x.AllFinite()
    ensures Difference(x, x) == Zeros(x.NumChannels(), x.numSamples)
  {
    var d := Difference(x, x);
    var z := Zeros(x.NumChannels(), x.numSamples);
    forall c | 0 <= c < x.NumChannels()
      ensures d.data[c] == z.data[c]
    {
    }
  }
}
