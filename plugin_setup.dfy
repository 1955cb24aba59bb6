/** Preparing the plugin instance (makeChannelSet, configurePluginForChannels
    and applyParameterMapByName, tools/vst3_harness/src/main.cpp).

    The host's bus negotiation is outside the model: what the plugin accepts
    and how many channels it then reports are inputs. */
module PluginSetup {
  import opened Wrappers
  import opened Text
  import opened OrderedMap

  datatype ChannelSet = Mono | Stereo | Discrete(count: nat)

  function Size(set_: ChannelSet): nat
  {
    match set_
    case Mono => 1
    case Stereo => 2
    case Discrete(count) => count
  }

  /** makeChannelSet: one channel or fewer is mono, two is stereo, more are
      discrete channels; the set always has max(channels, 1) channels. */
  function MakeChannelSet(channels: int): (r: ChannelSet)
    ensures Size(r) == if channels <= 1 then 1 else channels
    ensures channels <= 1 <==> r == Mono
    ensures channels == 2 <==> r == Stereo
  {
    if channels <= 1 then Mono
    else if channels == 2 then Stereo
    else Discrete(channels)
  }

  /** Channel totals an instance reports once its buses are set. */
  datatype ChannelCounts = ChannelCounts(inputs: nat, outputs: nat)

  /** The plugin's side of bus negotiation: whether it takes the same set on
      its main input and output bus, what it then reports, and what it
      reports with only its main buses enabled when it refuses. */
  datatype BusBehaviour = BusBehaviour(
    accepts: ChannelSet -> bool,
    countsWhenAccepted: ChannelSet -> ChannelCounts,
    countsMainBusesOnly: ChannelCounts)

  datatype ConfigureError = ChannelCountNotPositive | NoOutputChannels

  /** The counts the plugin reports after being asked for the same channel
      set on its main input and output bus. */
  function NegotiatedCounts(bus: BusBehaviour, channels: int): ChannelCounts
  {
    var requested := MakeChannelSet(channels);
    if bus.accepts(requested) then bus.countsWhenAccepted(requested) else bus.countsMainBusesOnly
  }

  /** configurePluginForChannels: a channel count of zero or less is refused
      before the plugin is asked; after negotiation, a plugin reporting no
      output channel is refused. */
  function ConfigureForChannels(bus: BusBehaviour, channels: int): (r: Result<ChannelCounts, ConfigureError>)
    ensures r.Ok? <==> channels > 0 && NegotiatedCounts(bus, channels).outputs > 0
    ensures channels <= 0 ==> r == Err(ChannelCountNotPositive)
    ensures r.Ok? ==> r.value == NegotiatedCounts(bus, channels) && r.value.outputs > 0
  {
    if channels <= 0 then Err(ChannelCountNotPositive)
    else
      var counts := NegotiatedCounts(bus, channels);
      if counts.outputs == 0 then Err(NoOutputChannels) else Ok(counts)
  }

  /** An entry of the instance's parameter list; Null stands for a nullptr
      entry, which the lookup skips. */
  datatype Parameter = Null | Param(name: string, value: real)

  const NameLength := 256

  /** The name a parameter is matched by: getName(256), lower-cased. */
  function MatchName(name: string): (r: string)
    ensures |r| == if |name| <= NameLength then |name| else NameLength
    ensures forall i :: 0 <= i < |r| ==> r[i] == LowerChar(name[i])
    ensures IsLower(r)
  {
    ToLower(Truncate(name, NameLength))
  }

  predicate Matches(p: Parameter, key: string)
  {
    p.Param? && MatchName(p.name) == key
  }

  /** The first parameter at or after from that the key matches. */
  function FindFrom(parameters: seq<Parameter>, key: string, from: nat): (r: Option<nat>)
    requires from <= |parameters|
    ensures r.Some? ==> (from <= r.value < |parameters| && Matches(parameters[r.value], key)
      && forall i :: from <= i < r.value ==> !Matches(parameters[i], key))
    ensures r.None? ==> forall i :: from <= i < |parameters| ==> !Matches(parameters[i], key)
    decreases |parameters| - from
  {
    if from == |parameters| then None
    else if Matches(parameters[from], key) then Some(from)
    else FindFrom(parameters, key, from + 1)
  }

  function FindParameter(parameters: seq<Parameter>, key: string): Option<nat>
  {
    FindFrom(parameters, key, 0)
  }

  /** Two parameter lists with the same entries apart from values. */
  ghost predicate SameNames(a: seq<Parameter>, b: seq<Parameter>)
  {
    |a| == |b| && forall i :: 0 <= i < |a| ==> (a[i].Null? <==> b[i].Null?) && (a[i].Param? ==> a[i].name == b[i].name)
  }

  /** The lookups over a list depend on names only. */
  lemma {:induction false} FindIgnoresValues(a: seq<Parameter>, b: seq<Parameter>, key: string, from: nat)
    requires SameNames(a, b) && from <= |a|
    ensures FindFrom(a, key, from) == FindFrom(b, key, from)
    decreases |a| - from
  {
    if from < |a| {
      FindIgnoresValues(a, b, key, from + 1);
    }
  }

  /** setValueNotifyingHost on parameter i. */
  function SetValue(parameters: seq<Parameter>, i: nat, value: real): seq<Parameter>
    requires i < |parameters| && parameters[i].Param?
  {
    parameters[i := Param(parameters[i].name, value)]
  }

  /** The loop over the requested map from entry k on: each name sets its
      first match, and the first name without one stops the loop and is
      reported. */
  function ApplyFrom(parameters: seq<Parameter>, requested: seq<Entry<real>>, k: nat): (seq<Parameter>, Option<string>)
    requires k <= |requested|
    decreases |requested| - k
  {
    if k == |requested| then (parameters, None)
    else
      match FindParameter(parameters, requested[k].key)
      case None => (parameters, Some(requested[k].key))
      case Some(i) => ApplyFrom(SetValue(parameters, i, requested[k].value), requested, k + 1)
  }

  /** applyParameterMapByName: for each requested name in map order, scan the
      parameters for the first whose lower-cased name equals it and set it;
      stop at the first name nothing matches. The returned list is the
      instance's parameters afterwards, including the values set before a
      failure. */
  method ApplyParameterMapByName(parameters: seq<Parameter>, requested: seq<Entry<real>>)
    returns (updated: seq<Parameter>, missing: Option<string>)
    ensures (updated, missing) == ApplyFrom(parameters, requested, 0)
  {
    updated := parameters;
    var k := 0;
    while k < |requested|
      invariant k <= |requested|
      invariant ApplyFrom(updated, requested, k) == ApplyFrom(parameters, requested, 0)
      decreases |requested| - k
    {
      var key := requested[k].key;
      var found := false;
      var i := 0;
      while i < |updated|
        invariant i <= |updated|
        invariant !found
        invariant FindFrom(updated, key, 0) == FindFrom(updated, key, i)
        decreases |updated| - i
      {
        if updated[i].Param? && ToLower(Truncate(updated[i].name, NameLength)) == key {
          found := true;
          break;
        }
        i := i + 1;
      }
      if !found {
        return updated, Some(key);
      }
      updated := updated[i := Param(updated[i].name, requested[k].value)];
      k := k + 1;
    }
    missing := None;
  }

  /** Parameter i after the first k requested entries were applied to the
      original list. */
  function Expected(original: seq<Parameter>, requested: seq<Entry<real>>, k: nat, i: nat): Parameter
    requires k <= |requested| && i < |original|
  {
    if k == 0 then original[i]
    else if FindParameter(original, requested[k - 1].key) == Some(i) then Param(original[i].name, requested[k - 1].value)
    else Expected(original, requested, k - 1, i)
  }

  lemma {:induction false} ExpectedKeepsNames(original: seq<Parameter>, requested: seq<Entry<real>>, k: nat, i: nat)
    requires k <= |requested| && i < |original|
    ensures Expected(original, requested, k, i).Null? <==> original[i].Null?
    ensures original[i].Param? ==> Expected(original, requested, k, i).name == original[i].name
  {
    if k > 0 && FindParameter(original, requested[k - 1].key) != Some(i) {
      ExpectedKeepsNames(original, requested, k - 1, i);
    }
  }

  /** The list holds exactly the first s requested entries applied. */
  ghost predicate AppliedUpTo(original: seq<Parameter>, requested: seq<Entry<real>>, s: nat, updated: seq<Parameter>)
    requires s <= |requested|
  {
    |updated| == |original| && forall i :: 0 <= i < |updated| ==> updated[i] == Expected(original, requested, s, i)
  }

  /** Every requested name from position from to position to matches. */
  ghost predicate AllFound(original: seq<Parameter>, requested: seq<Entry<real>>, from: nat, to: nat)
    requires to <= |requested|
  {
    forall j :: from <= j < to ==> FindParameter(original, requested[j].key).Some?
  }

  /** What the loop from entry k on ends with: success exactly when every
      later name matches, with all of them applied; otherwise the first later
      name without a match is reported, with the names before it applied. */
  ghost predicate Outcome(original: seq<Parameter>, requested: seq<Entry<real>>, k: nat, updated: seq<Parameter>, missing: Option<string>)
    requires k <= |requested|
  {
    (missing.None? <==> AllFound(original, requested, k, |requested|))
    && (missing.None? ==> AppliedUpTo(original, requested, |requested|, updated))
    && (missing.Some? ==> exists s :: (k <= s < |requested|
          && FindParameter(original, requested[s].key).None?
          && missing.value == requested[s].key
          && AllFound(original, requested, k, s)
          && AppliedUpTo(original, requested, s, updated)))
  }

  lemma AppliedKeepsNames(original: seq<Parameter>, requested: seq<Entry<real>>, k: nat, current: seq<Parameter>)
    requires k <= |requested| && AppliedUpTo(original, requested, k, current)
    ensures SameNames(current, original)
  {
    forall i | 0 <= i < |current|
      ensures (current[i].Null? <==> original[i].Null?) && (current[i].Param? ==> current[i].name == original[i].name)
    {
      ExpectedKeepsNames(original, requested, k, i);
    }
  }

  /** Setting the first match of entry k advances the applied prefix. */
  lemma SetValueStep(original: seq<Parameter>, requested: seq<Entry<real>>, k: nat, current: seq<Parameter>, i: nat)
    requires k < |requested| && AppliedUpTo(original, requested, k, current)
    requires FindParameter(original, requested[k].key) == Some(i)
    requires i < |current| && current[i].Param? && current[i].name == original[i].name
    ensures AppliedUpTo(original, requested, k + 1, SetValue(current, i, requested[k].value))
  {
  }

  /** A matched entry k keeps whatever outcome the loop from k + 1 has. */
  lemma OutcomeStep(original: seq<Parameter>, requested: seq<Entry<real>>, k: nat, updated: seq<Parameter>, missing: Option<string>)
    requires k < |requested|
    requires FindParameter(original, requested[k].key).Some?
    requires Outcome(original, requested, k + 1, updated, missing)
    ensures Outcome(original, requested, k, updated, missing)
  {
    if missing.Some? {
      var s :| k + 1 <= s < |requested|
          && FindParameter(original, requested[s].key).None?
          && missing.value == requested[s].key
          && AllFound(original, requested, k + 1, s)
          && AppliedUpTo(original, requested, s, updated);
      assert AllFound(original, requested, k, s);
    }
  }

  lemma {:induction false} ApplyFromOutcome(original: seq<Parameter>, current: seq<Parameter>, requested: seq<Entry<real>>, k: nat)
    requires k <= |requested|
    requires AppliedUpTo(original, requested, k, current)
    ensures Outcome(original, requested, k, ApplyFrom(current, requested, k).0, ApplyFrom(current, requested, k).1)
    decreases |requested| - k
  {
    if k < |requested| {
      var key := requested[k].key;
      AppliedKeepsNames(original, requested, k, current);
      FindIgnoresValues(current, original, key, 0);
      match FindParameter(current, key)
      case None =>
        assert AllFound(original, requested, k, k);
      case Some(i) =>
        SetValueStep(original, requested, k, current, i);
        ApplyFromOutcome(original, SetValue(current, i, requested[k].value), requested, k + 1);
        OutcomeStep(original, requested, k, ApplyFrom(current, requested, k).0, ApplyFrom(current, requested, k).1);
    }
  }

  /** The whole contract of applyParameterMapByName: it succeeds exactly when
      every requested name matches a parameter; otherwise it reports the
      first requested name (in map order) that matches none. The names
      before the stop have each set the first parameter they match, in
      order, and every other parameter keeps its value; no entry is added,
      removed or renamed. */
  lemma ApplyParameterMapContract(parameters: seq<Parameter>, requested: seq<Entry<real>>)
    ensures SameNames(ApplyFrom(parameters, requested, 0).0, parameters)
    ensures Outcome(parameters, requested, 0, ApplyFrom(parameters, requested, 0).0, ApplyFrom(parameters, requested, 0).1)
  {
    ApplyFromOutcome(parameters, parameters, requested, 0);
    var (updated, missing) := ApplyFrom(parameters, requested, 0);
    if missing.None? {
      AppliedKeepsNames(parameters, requested, |requested|, updated);
    } else {
      var s :| 0 <= s < |requested|
          && FindParameter(parameters, requested[s].key).None?
          && missing.value == requested[s].key
          && AllFound(parameters, requested, 0, s)
          && AppliedUpTo(parameters, requested, s, updated);
      AppliedKeepsNames(parameters, requested, s, updated);
    }
  }

  /** What Expected means: parameter i holds the value of the last of the
      first k names whose first match it is, or its original value when it is
      no such name's first match. */
  lemma {:induction false} ExpectedIsLastMatch(original: seq<Parameter>, requested: seq<Entry<real>>, k: nat, i: nat)
    requires k <= |requested| && i < |original|
    ensures (forall j :: 0 <= j < k ==> FindParameter(original, requested[j].key) != Some(i)) ==>
      Expected(original, requested, k, i) == original[i]
    ensures forall j :: (0 <= j < k && FindParameter(original, requested[j].key) == Some(i)
      && forall l :: j < l < k ==> FindParameter(original, requested[l].key) != Some(i)) ==>
        Expected(original, requested, k, i) == Param(original[i].name, requested[j].value)
  {
    if k > 0 {
      ExpectedIsLastMatch(original, requested, k - 1, i);
    }
  }

  /** In a std::map every name appears once, so a parameter is the first
      match of at most one requested name. */
  lemma DistinctNamesDistinctTargets(parameters: seq<Parameter>, requested: seq<Entry<real>>, j: nat, l: nat)
    requires Ascending(requested)
    requires j < l < |requested|
    requires FindParameter(parameters, requested[j].key).Some?
    ensures FindParameter(parameters, requested[j].key) != FindParameter(parameters, requested[l].key)
  {
    LexLessIrreflexive(requested[j].key);
  }
}
