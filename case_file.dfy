/** The render case file (parseNumericVar and parseRenderCaseFile,
    tools/vst3_harness/src/main.cpp), read from the JSON value it parses to.

    A case sets the warm-up length in milliseconds (default 50, never
    negative), an optional positive render length in seconds, and normalized
    parameter values in [0, 1] keyed by lower-cased parameter name. */
module CaseFile {
  import opened Wrappers
  import opened Samples
  import opened Text
  import opened OrderedMap

  /** A parsed JSON value (juce::var). Integers that fit 32 bits parse as
      int, wider ones as int64, numbers with a fraction or exponent as
      double. */
  datatype Var =
    | Void
    | IntVar(i: int)
    | Int64Var(i: int)
    | DoubleVar(d: Float)
    | BoolVar(b: bool)
    | StringVar(s: string)
    | ArrayVar(items: seq<Var>)
    | ObjectVar(properties: seq<Property>)

  /** One named property of a JSON object, in the order they were read. In an
      object parsed by juce::JSON the names are unique: a repeated key
      replaces the earlier value in place, so an ObjectVar models a parsed
      object only when no two of its properties share a name, and Lookup's
      choice of the first match is then the only match. */
  datatype Property = Property(name: string, value: Var)

  /** parseNumericVar: ints, int64s, bools and doubles convert to a number,
      which is accepted only when finite; anything else is refused. */
  function ParseNumericVar(v: Var): (r: Option<real>)
    ensures r.Some? <==> (v.IntVar? || v.Int64Var? || v.BoolVar? || (v.DoubleVar? && v.d.Finite?))
    ensures v.BoolVar? ==> r == Some(if v.b then 1.0 else 0.0)
    ensures (v.IntVar? || v.Int64Var?) ==> r == Some(v.i as real)
    ensures v.DoubleVar? && v.d.Finite? ==> r == Some(v.d.value)
  {
    match v
    case IntVar(i) => Some(i as real)
    case Int64Var(i) => Some(i as real)
    case BoolVar(b) => Some(if b then 1.0 else 0.0)
    case DoubleVar(d) => if d.Finite? then Some(d.value) else None
    case _ => None
  }

  /** hasProperty/getProperty: the property of that name (the first, should
      a hand-built value hold two). */
  function Lookup(properties: seq<Property>, name: string): (r: Option<Var>)
    ensures r.Some? <==> exists j :: 0 <= j < |properties| && properties[j].name == name
    ensures r.Some? ==> exists j :: 0 <= j < |properties| && properties[j] == Property(name, r.value)
  {
    if |properties| == 0 then None
    else if properties[0].name == name then Some(properties[0].value)
    else
      var r := Lookup(properties[1..], name);
      assert forall j :: 0 < j < |properties| ==> properties[j] == properties[1..][j - 1];
      r
  }

  datatype CaseError =
    | RootNotObject
    | InvalidWarmup
    | InvalidRenderSeconds
    | ParamsNotObject
    | ParamNotNumeric(name: string)
    | ParamOutOfRange(name: string)

  datatype RenderCase = RenderCase(warmupMs: int, renderSeconds: Option<real>, params: seq<Entry<real>>)

  const DefaultWarmupMs := 50

  /** std::round followed by the cast to int: the nearest integer, halves
      away from zero. */
  function Round(x: real): (r: int)
    ensures x - 0.5 <= r as real <= x + 0.5
    ensures x >= 0.0 ==> r >= 0 && x - 0.5 < r as real
    ensures x <= 0.0 ==> r <= 0 && r as real < x + 0.5
  {
    if x >= 0.0 then (x + 0.5).Floor else -((-x + 0.5).Floor)
  }

  /** What a parameter value is checked for, in order. */
  function ParamProblem(p: Property): (r: Option<CaseError>)
    ensures r.None? <==> (ParseNumericVar(p.value).Some? && 0.0 <= ParseNumericVar(p.value).value <= 1.0)
    ensures r.Some? ==> r.value == ParamNotNumeric(p.name) || r.value == ParamOutOfRange(p.name)
  {
    match ParseNumericVar(p.value)
    case None => Some(ParamNotNumeric(p.name))
    case Some(x) => if x < 0.0 || x > 1.0 then Some(ParamOutOfRange(p.name)) else None
  }

  /** The params loop from property i on, with the map built so far. */
  function ParamsFrom(properties: seq<Property>, i: nat, params: seq<Entry<real>>): Result<seq<Entry<real>>, CaseError>
    requires i <= |properties|
    decreases |properties| - i
  {
    if i == |properties| then Ok(params)
    else if ParamProblem(properties[i]).Some? then Err(ParamProblem(properties[i]).value)
    else ParamsFrom(properties, i + 1, Put(params, ToLower(properties[i].name), ParseNumericVar(properties[i].value).value))
  }

  /** The whole file's validation, on its parsed root value. */
  function CaseOf(root: Var): Result<RenderCase, CaseError>
  {
    if !root.ObjectVar? then Err(RootNotObject)
    else
      var warmup := Lookup(root.properties, "warmupMs");
      var seconds := Lookup(root.properties, "renderSeconds");
      var params := Lookup(root.properties, "params");
      if warmup.Some? && (ParseNumericVar(warmup.value).None? || ParseNumericVar(warmup.value).value < 0.0) then
        Err(InvalidWarmup)
      else if seconds.Some? && (ParseNumericVar(seconds.value).None? || ParseNumericVar(seconds.value).value <= 0.0) then
        Err(InvalidRenderSeconds)
      else if params.Some? && !params.value.ObjectVar? then
        Err(ParamsNotObject)
      else
        var collected := if params.Some? then ParamsFrom(params.value.properties, 0, []) else Ok([]);
        if collected.Err? then Err(collected.error)
        else
          Ok(RenderCase(
            if warmup.Some? then Round(ParseNumericVar(warmup.value).value) else DefaultWarmupMs,
            if seconds.Some? then Some(ParseNumericVar(seconds.value).value) else None,
            collected.value))
  }

  /** parseRenderCaseFile on the parsed root: the optional fields in order,
      then the loop over the params object. */
  method ParseRenderCase(root: Var) returns (result: Result<RenderCase, CaseError>)
    ensures result == CaseOf(root)
  {
    if !root.ObjectVar? {
      return Err(RootNotObject);
    }
    var warmupMs := DefaultWarmupMs;
    var warmup := Lookup(root.properties, "warmupMs");
    if warmup.Some? {
      var number := ParseNumericVar(warmup.value);
      if number.None? || number.value < 0.0 {
        return Err(InvalidWarmup);
      }
      warmupMs := Round(number.value);
    }
    var renderSeconds: Option<real> := None;
    var seconds := Lookup(root.properties, "renderSeconds");
    if seconds.Some? {
      var number := ParseNumericVar(seconds.value);
      if number.None? || number.value <= 0.0 {
        return Err(InvalidRenderSeconds);
      }
      renderSeconds := Some(number.value);
    }
    var params: seq<Entry<real>> := [];
    var paramsVar := Lookup(root.properties, "params");
    if paramsVar.Some? {
      if !paramsVar.value.ObjectVar? {
        return Err(ParamsNotObject);
      }
      var properties := paramsVar.value.properties;
      var i := 0;
      while i < |properties|
        invariant i <= |properties|
        invariant ParamsFrom(properties, i, params) == ParamsFrom(properties, 0, [])
        decreases |properties| - i
      {
        var number := ParseNumericVar(properties[i].value);
        if number.None? {
          return Err(ParamNotNumeric(properties[i].name));
        }
        if number.value < 0.0 || number.value > 1.0 {
          return Err(ParamOutOfRange(properties[i].name));
        }
        params := Put(params, ToLower(properties[i].name), number.value);
        i := i + 1;
      }
    }
    return Ok(RenderCase(warmupMs, renderSeconds, params));
  }

  /** The value the last property whose lower-cased name is key gave, among
      the first n. */
  function LastValue(properties: seq<Property>, n: nat, key: string): Option<real>
    requires n <= |properties|
  {
    if n == 0 then None
    else if ToLower(properties[n - 1].name) == key then ParseNumericVar(properties[n - 1].value)
    else LastValue(properties, n - 1, key)
  }

  /** The params loop stops at the first property with a problem and reports
      it; otherwise it accepts, and its map holds, for every lower-cased name,
      the value of the last property with that name. */
  lemma {:induction false} ParamsFromOutcome(properties: seq<Property>, i: nat, params: seq<Entry<real>>)
    requires i <= |properties|
    requires Ascending(params)
    requires forall key :: Get(params, key) == LastValue(properties, i, key)
    ensures ParamsFrom(properties, i, params).Ok? <==>
      forall j :: i <= j < |properties| ==> ParamProblem(properties[j]).None?
    ensures ParamsFrom(properties, i, params).Err? ==>
      exists j :: i <= j < |properties| && ParamProblem(properties[j]).Some?
        && ParamsFrom(properties, i, params).error == ParamProblem(properties[j]).value
        && forall k :: i <= k < j ==> ParamProblem(properties[k]).None?
    ensures ParamsFrom(properties, i, params).Ok? ==>
      var m := ParamsFrom(properties, i, params).value;
      Ascending(m) && forall key :: Get(m, key) == LastValue(properties, |properties|, key)
    decreases |properties| - i
  {
    if i < |properties| && ParamProblem(properties[i]).None? {
      var key := ToLower(properties[i].name);
      var x := ParseNumericVar(properties[i].value).value;
      var next := Put(params, key, x);
      PutAscending(params, key, x);
      forall other
        ensures Get(next, other) == LastValue(properties, i + 1, other)
      {
        GetPut(params, key, x, other);
      }
      ParamsFromOutcome(properties, i + 1, next);
    }
  }

  /** A stored value is the number some property gave, under its name
      lower-cased. */
  lemma {:induction false} LastValueFromProperty(properties: seq<Property>, n: nat, key: string)
    requires n <= |properties|
    requires LastValue(properties, n, key).Some?
    ensures exists j :: (0 <= j < n && ToLower(properties[j].name) == key
      && ParseNumericVar(properties[j].value) == LastValue(properties, n, key))
  {
    if ToLower(properties[n - 1].name) != key {
      LastValueFromProperty(properties, n - 1, key);
    }
  }

  /** A case is accepted exactly when the root is an object, a warmupMs it
      has is a non-negative number, a renderSeconds it has is a positive
      number, and a params it has is an object whose every value is a number
      in [0, 1]. An accepted case has warmupMs 50 when absent and otherwise
      the rounded number, renderSeconds as given, and parameters keyed by
      lower-cased name, in key order, each holding a value in [0, 1] that the
      last property of that name gave. */
  lemma CaseOfContract(root: Var)
    ensures CaseOf(root).Ok? <==>
      root.ObjectVar?
      && (var warmup := Lookup(root.properties, "warmupMs");
          warmup.Some? ==> ParseNumericVar(warmup.value).Some? && ParseNumericVar(warmup.value).value >= 0.0)
      && (var seconds := Lookup(root.properties, "renderSeconds");
          seconds.Some? ==> ParseNumericVar(seconds.value).Some? && ParseNumericVar(seconds.value).value > 0.0)
      && (var params := Lookup(root.properties, "params");
          params.Some? ==> (params.value.ObjectVar?
            && forall j :: 0 <= j < |params.value.properties| ==> ParamProblem(params.value.properties[j]).None?))
    ensures CaseOf(root).Ok? ==>
      var c := CaseOf(root).value;
      c.warmupMs >= 0
      && (Lookup(root.properties, "warmupMs").None? ==> c.warmupMs == DefaultWarmupMs)
      && (c.renderSeconds.Some? ==> c.renderSeconds.value > 0.0)
      && (Lookup(root.properties, "renderSeconds").None? <==> c.renderSeconds.None?)
      && Ascending(c.params)
      && (Lookup(root.properties, "params").None? ==> c.params == [])
      && forall key :: Get(c.params, key).Some? ==>
           IsLower(key) && 0.0 <= Get(c.params, key).value <= 1.0
    ensures CaseOf(root).Ok? ==>
      var c := CaseOf(root).value;
      var warmup := Lookup(root.properties, "warmupMs");
      var seconds := Lookup(root.properties, "renderSeconds");
      var params := Lookup(root.properties, "params");
      && (warmup.Some? ==> c.warmupMs == Round(ParseNumericVar(warmup.value).value))
      && (seconds.Some? ==> c.renderSeconds == ParseNumericVar(seconds.value))
      && (params.Some? && params.value.ObjectVar? ==>
            forall key :: Get(c.params, key) == LastValue(params.value.properties, |params.value.properties|, key))
  {
    if root.ObjectVar? {
      var params := Lookup(root.properties, "params");
      if params.Some? && params.value.ObjectVar? {
        var properties := params.value.properties;
        ParamsFromOutcome(properties, 0, []);
        var collected := ParamsFrom(properties, 0, []);
        if collected.Ok? {
          forall key | Get(collected.value, key).Some?
            ensures IsLower(key) && 0.0 <= Get(collected.value, key).value <= 1.0
          {
            LastValueFromProperty(properties, |properties|, key);
            var j :| 0 <= j < |properties| && ToLower(properties[j].name) == key
              && ParseNumericVar(properties[j].value) == LastValue(properties, |properties|, key);
            ToLowerIdempotent(properties[j].name);
          }
        }
      }
    }
  }

  /** The first bad parameter, in file order, is the one reported. */
  lemma FirstBadParamReported(root: Var, j: nat)
    requires root.ObjectVar?
    requires Lookup(root.properties, "params").Some? && Lookup(root.properties, "params").value.ObjectVar?
    requires var properties := Lookup(root.properties, "params").value.properties;
      j < |properties| && ParamProblem(properties[j]).Some?
      && forall k :: 0 <= k < j ==> ParamProblem(properties[k]).None?
    ensures CaseOf(root).Err?
    ensures CaseOf(root).error == InvalidWarmup || CaseOf(root).error == InvalidRenderSeconds
      || CaseOf(root).error == ParamProblem(Lookup(root.properties, "params").value.properties[j]).value
  {
    var properties := Lookup(root.properties, "params").value.properties;
    ParamsFromOutcome(properties, 0, []);
  }

  /** Two parameters whose names differ only in case end up as one entry,
      holding the later value. */
  lemma LaterCaseVariantWins(a: string, b: string, x: real, y: real)
    requires ToLower(a) == ToLower(b)
    requires 0.0 <= x <= 1.0 && 0.0 <= y <= 1.0
    ensures ParamsFrom([Property(a, DoubleVar(Finite(x))), Property(b, DoubleVar(Finite(y)))], 0, [])
      == Ok([Entry(ToLower(b), y)])
  {
    var properties := [Property(a, DoubleVar(Finite(x))), Property(b, DoubleVar(Finite(y)))];
    var first := Put([], ToLower(a), x);
    assert first == [Entry(ToLower(a), x)];
    assert Put(first, ToLower(b), y) == [Entry(ToLower(b), y)];
    assert ParamsFrom(properties, 2, [Entry(ToLower(b), y)]) == Ok([Entry(ToLower(b), y)]);
  }
}
