/** Command-line options (startsWithDashes, parseOptions, parseIntStrict,
    getRequiredOption, getRequiredIntOption and getFlag,
    tools/vst3_harness/src/main.cpp).

    The arguments after the subcommand are `--key [value]` pairs: a key
    followed by a token without dashes takes that token as its value, any other
    key gets "true", and a repeated key keeps its last value. */
module Options {
  import opened Wrappers

  type OptionMap = map<string, string>

  datatype OptionError =
    | UnexpectedPositional(token: string)
    | EmptyOptionName
    | MissingOption(key: string)
    | InvalidInteger(key: string, text: string)

  /** `token.rfind("--", 0) == 0`: the token begins with two dashes. */
  predicate StartsWithDashes(token: string)
  {
    |token| >= 2 && token[..2] == "--"
  }

  /** The key named by a dashed token. */
  function KeyOf(token: string): string
    requires StartsWithDashes(token)
  {
    token[2..]
  }

  /** The value of the key at position i: the next token when it has no
      dashes, otherwise "true". */
  function ValueAfter(args: seq<string>, i: nat): string
    requires i < |args|
  {
    if i + 1 < |args| && !StartsWithDashes(args[i + 1]) then args[i + 1] else "true"
  }

  /** The position after the key at i and its value, if it took one. */
  function NextKeyPosition(args: seq<string>, i: nat): (r: nat)
    requires i < |args|
    ensures i < r <= |args|
  {
    if i + 1 < |args| && !StartsWithDashes(args[i + 1]) then i + 2 else i + 1
  }

  /** The rest of the scan from position i, with `options` collected so far. */
  function ParseFrom(args: seq<string>, i: nat, options: OptionMap): Result<OptionMap, OptionError>
    decreases |args| - i
  {
    if i >= |args| then Ok(options)
    else if !StartsWithDashes(args[i]) then Err(UnexpectedPositional(args[i]))
    else if KeyOf(args[i]) == "" then Err(EmptyOptionName)
    else ParseFrom(args, NextKeyPosition(args, i), options[KeyOf(args[i]) := ValueAfter(args, i)])
  }

  /** parseOptions: scan args[startIndex..] pairing each key with its value. */
  method ParseOptions(args: seq<string>, startIndex: nat) returns (result: Result<OptionMap, OptionError>)
    ensures result == ParseFrom(args, startIndex, map[])
  {
    var options: OptionMap := map[];
    var i := startIndex;
    while i < |args|
      invariant ParseFrom(args, i, options) == ParseFrom(args, startIndex, map[])
      decreases |args| - i
    {
      var token := args[i];
      if !StartsWithDashes(token) {
        return Err(UnexpectedPositional(token));
      }
      var key := token[2..];
      if key == "" {
        return Err(EmptyOptionName);
      }
      var value := "true";
      var consumed := i;
      if i + 1 < |args| {
        var next := args[i + 1];
        if !StartsWithDashes(next) {
          value := next;
          i := i + 1;
        }
      }
      options := options[key := value];
      assert i + 1 == NextKeyPosition(args, consumed);
      i := i + 1;
    }
    return Ok(options);
  }

  // ---------------------------------------------------------------------------
  // What parseOptions accepts, independently of the scan

  /** Position j (at or after start) makes the scan fail: a bare "--", or a
      token without dashes that is not the value of a key just before it. */
  predicate BadAt(args: seq<string>, start: nat, j: nat)
    requires j < |args|
  {
    if StartsWithDashes(args[j]) then |args[j]| == 2
    else j <= start || !StartsWithDashes(args[j - 1])
  }

  /** The error reported for a bad position. */
  function ErrorAt(args: seq<string>, j: nat): OptionError
    requires j < |args|
  {
    if StartsWithDashes(args[j]) then EmptyOptionName else UnexpectedPositional(args[j])
  }

  ghost predicate NoBadIn(args: seq<string>, start: nat, lo: nat)
  {
    forall j :: lo <= j < |args| ==> !BadAt(args, start, j)
  }

  /** The scan can be at position i: it is the start, or the end, or the
      token before it is a consumed value, or it is itself a key. */
  ghost predicate Reachable(args: seq<string>, start: nat, i: nat)
  {
    && start <= i
    && (i == start || i >= |args| || !StartsWithDashes(args[i - 1]) || StartsWithDashes(args[i]))
  }

  /** From any reachable position the scan succeeds exactly when no later
      position is bad, and otherwise fails with the error of the first bad one. */
  lemma {:induction false} ParseFromOutcome(args: seq<string>, start: nat, i: nat, options: OptionMap)
    requires Reachable(args, start, i)
    ensures ParseFrom(args, i, options).Ok? <==> NoBadIn(args, start, i)
    ensures ParseFrom(args, i, options).Err? ==>
      exists j :: i <= j < |args| && BadAt(args, start, j) && ParseFrom(args, i, options).error == ErrorAt(args, j)
                  && forall j' :: i <= j' < j ==> !BadAt(args, start, j')
    decreases |args| - i
  {
    if i < |args| {
      if !StartsWithDashes(args[i]) {
        assert BadAt(args, start, i);
      } else if KeyOf(args[i]) == "" {
        assert BadAt(args, start, i);
      } else {
        var next := NextKeyPosition(args, i);
        var options' := options[KeyOf(args[i]) := ValueAfter(args, i)];
        ParseFromOutcome(args, start, next, options');
        assert !BadAt(args, start, i);
        if next == i + 2 {
          assert !BadAt(args, start, i + 1);
        }
        if ParseFrom(args, next, options').Err? {
          var j :| next <= j < |args| && BadAt(args, start, j) && ParseFrom(args, next, options').error == ErrorAt(args, j)
                   && forall j' :: next <= j' < j ==> !BadAt(args, start, j');
          assert forall j' :: i <= j' < j ==> !BadAt(args, start, j');
        }
      }
    }
  }

  /** A key occurs at position j. */
  predicate KeyAt(args: seq<string>, j: nat, key: string)
    requires j < |args|
  {
    StartsWithDashes(args[j]) && KeyOf(args[j]) == key
  }

  /** j is the last occurrence of `key` in args[lo..]. */
  ghost predicate LastKeyAt(args: seq<string>, lo: nat, j: nat, key: string)
  {
    && lo <= j < |args|
    && KeyAt(args, j, key)
    && forall j' :: j < j' < |args| ==> !KeyAt(args, j', key)
  }

  /** What a successful scan from position i adds to `options`: every key
      that occurs later, with the value of its last occurrence; keys that do not
      occur later keep their value. */
  lemma {:induction false} ParseFromContents(args: seq<string>, i: nat, options: OptionMap)
    requires ParseFrom(args, i, options).Ok?
    ensures var m := ParseFrom(args, i, options).value;
      && (forall key :: key in m <==> key in options || exists j :: i <= j < |args| && KeyAt(args, j, key))
      && (forall key, j :: LastKeyAt(args, i, j, key) ==> key in m && m[key] == ValueAfter(args, j))
      && (forall key :: key in options && (forall j :: i <= j < |args| ==> !KeyAt(args, j, key)) ==>
            key in m && m[key] == options[key])
    decreases |args| - i
  {
    if i < |args| {
      var key0 := KeyOf(args[i]);
      var next := NextKeyPosition(args, i);
      var options' := options[key0 := ValueAfter(args, i)];
      ParseFromContents(args, next, options');
      var m := ParseFrom(args, i, options).value;
      assert m == ParseFrom(args, next, options').value;
      if next == i + 2 {
        assert !StartsWithDashes(args[i + 1]);
      }
      forall key
        ensures key in m <==> key in options || exists j :: i <= j < |args| && KeyAt(args, j, key)
      {
        assert KeyAt(args, i, key0);
        assert key in options' <==> key in options || key == key0;
        if key in m && key !in options && key != key0 {
          var j :| next <= j < |args| && KeyAt(args, j, key);
        }
        if exists j :: i <= j < |args| && KeyAt(args, j, key) {
          var j :| i <= j < |args| && KeyAt(args, j, key);
          if j < next {
            assert j == i;
            assert key == key0;
          } else {
            assert exists j :: next <= j < |args| && KeyAt(args, j, key);
          }
        }
      }
      forall key: string, j: nat | LastKeyAt(args, i, j, key)
        ensures key in m && m[key] == ValueAfter(args, j)
      {
        if j >= next {
          assert LastKeyAt(args, next, j, key);
        } else {
          assert j == i && key == key0;
          assert forall j' :: next <= j' < |args| ==> !KeyAt(args, j', key);
        }
      }
      forall key | key in options && (forall j :: i <= j < |args| ==> !KeyAt(args, j, key))
        ensures key in m && m[key] == options[key]
      {
        assert KeyAt(args, i, key0);
        assert key != key0;
      }
    }
  }

  /** The whole contract of parseOptions. It succeeds exactly when no position
      from startIndex on is bad; otherwise it reports the first bad token.
      On success the keys are exactly those given, each with the value of its
      last occurrence. */
  lemma ParseOptionsContract(args: seq<string>, startIndex: nat)
    ensures var r := ParseFrom(args, startIndex, map[]);
      && (r.Ok? <==> forall j :: startIndex <= j < |args| ==> !BadAt(args, startIndex, j))
      && (r.Err? ==> exists j :: startIndex <= j < |args| && BadAt(args, startIndex, j) && r.error == ErrorAt(args, j)
                                 && forall j' :: startIndex <= j' < j ==> !BadAt(args, startIndex, j'))
      && (r.Ok? ==>
            && (forall key :: key in r.value <==> exists j :: startIndex <= j < |args| && KeyAt(args, j, key))
            && (forall key, j :: LastKeyAt(args, startIndex, j, key) ==> key in r.value && r.value[key] == ValueAfter(args, j)))
  {
    ParseFromOutcome(args, startIndex, startIndex, map[]);
    if ParseFrom(args, startIndex, map[]).Ok? {
      ParseFromContents(args, startIndex, map[]);
    }
  }

  /** A repeated key keeps the last value given. */
  lemma RepeatedKeyKeepsLast()
    ensures ParseFrom(["--sr", "44100", "--sr", "48000"], 0, map[]) == Ok(map["sr" := "48000"])
  {
    var args := ["--sr", "44100", "--sr", "48000"];
    NoDashes(args[1]);
    NoDashes(args[3]);
    assert StartsWithDashes(args[0]) && StartsWithDashes(args[2]);
    assert KeyOf(args[0]) == "sr" && KeyOf(args[2]) == "sr";
    assert map["sr" := "44100"]["sr" := "48000"] == map["sr" := "48000"];
  }

  lemma NoDashes(token: string)
    requires |token| > 0 && token[0] != '-'
    ensures !StartsWithDashes(token)
  {
    if |token| >= 2 {
      assert token[..2][0] == token[0];
    }
  }

  /** A flag followed by another key, or by nothing, reads "true". */
  lemma FlagsReadTrue()
    ensures ParseFrom(["--null", "--auto-align"], 0, map[]) == Ok(map["null" := "true", "auto-align" := "true"])
  {
    var args := ["--null", "--auto-align"];
    assert StartsWithDashes(args[0]) && StartsWithDashes(args[1]);
    assert KeyOf(args[0]) == "null" && KeyOf(args[1]) == "auto-align";
  }

  // ---------------------------------------------------------------------------
  // Looking options up

  /** getRequiredOption. */
  function RequiredOption(options: OptionMap, key: string): (r: Result<string, OptionError>)
    ensures r.Ok? <==> key in options
    ensures r.Ok? ==> r.value == options[key]
    ensures r.Err? ==> r.error == MissingOption(key)
  {
    if key in options then Ok(options[key]) else Err(MissingOption(key))
  }

  /** getFlag: the key is present, whatever its value. */
  predicate Flag(options: OptionMap, key: string)
  {
    key in options
  }

  /** A flag is on exactly when its key was given on the command line,
      whatever value followed it: "--null false" turns the null test on. */
  lemma FlagMeansKeyGiven(args: seq<string>, startIndex: nat, key: string)
    requires ParseFrom(args, startIndex, map[]).Ok?
    ensures Flag(ParseFrom(args, startIndex, map[]).value, key) <==>
      exists j :: startIndex <= j < |args| && KeyAt(args, j, key)
  {
    ParseOptionsContract(args, startIndex);
  }

  /** "--null false" sets the flag. */
  lemma FlagWithFalseValueIsOn()
    ensures ParseFrom(["--null", "false"], 0, map[]).Ok?
    ensures Flag(ParseFrom(["--null", "false"], 0, map[]).value, "null")
  {
    var args := ["--null", "false"];
    NoDashes(args[1]);
    assert StartsWithDashes(args[0]) && KeyOf(args[0]) == "null";
  }

  /** getRequiredIntOption: present, and a whole 32-bit integer. */
  function RequiredIntOption(options: OptionMap, key: string): (r: Result<int, OptionError>)
    ensures r.Ok? <==> key in options && ParseIntStrict(options[key]).Some?
    ensures r.Ok? ==> r.value == ParseIntStrict(options[key]).value && IntMin <= r.value <= IntMax
    ensures key !in options ==> r == Err(MissingOption(key))
    ensures key in options && ParseIntStrict(options[key]).None? ==> r == Err(InvalidInteger(key, options[key]))
  {
    if key !in options then Err(MissingOption(key))
    else
      var parsed := ParseIntStrict(options[key]);
      if parsed.None? then Err(InvalidInteger(key, options[key])) else Ok(parsed.value)
  }

  // ---------------------------------------------------------------------------
  // parseIntStrict

  const IntMin: int := -0x8000_0000
  const IntMax: int := 0x7FFF_FFFF

  /** The characters std::isspace accepts in the "C" locale. */
  predicate IsSpace(c: char)
  {
    c == ' ' || c == '\t' || c == '\n' || c == '\U{B}' || c == '\U{C}' || c == '\r'
  }

  predicate IsDigit(c: char)
  {
    '0' <= c <= '9'
  }

  /** The number of leading whitespace characters. */
  function LeadingSpaces(text: string): (n: nat)
    ensures n <= |text|
    ensures forall i :: 0 <= i < n ==> IsSpace(text[i])
    ensures n < |text| ==> !IsSpace(text[n])
  {
    if |text| > 0 && IsSpace(text[0]) then 1 + LeadingSpaces(text[1..]) else 0
  }

  predicate AllDigits(s: string)
  {
    forall i :: 0 <= i < |s| ==> IsDigit(s[i])
  }

  /** The value of a string of decimal digits, most significant first. */
  function DigitsValue(s: string): nat
    requires AllDigits(s)
  {
    if |s| == 0 then 0 else 10 * DigitsValue(s[..|s| - 1]) + (s[|s| - 1] as int - '0' as int)
  }

  /** parseIntStrict: std::stol in base 10 (leading whitespace, an optional
      sign, at least one digit), which must consume the whole text and give a
      value within the range of a 32-bit int. */
  function ParseIntStrict(text: string): (r: Option<int>)
    ensures r.Some? ==> IntMin <= r.value <= IntMax
  {
    var rest := text[LeadingSpaces(text)..];
    var signed := |rest| > 0 && (rest[0] == '-' || rest[0] == '+');
    var digits := if signed then rest[1..] else rest;
    if |digits| == 0 || !AllDigits(digits) then None
    else
      var magnitude := DigitsValue(digits);
      var value: int := if signed && rest[0] == '-' then -(magnitude as int) else magnitude;
      if IntMin <= value <= IntMax then Some(value) else None
  }

  /** The decimal digits of n, most significant first, without leading zeros. */
  function Digits(n: nat): (s: string)
    ensures |s| > 0 && AllDigits(s)
  {
    if n < 10 then [('0' as int + n) as char]
    else Digits(n / 10) + [('0' as int + n % 10) as char]
  }

  /** A decimal rendering of an integer, as a caller writes `--bs 512`. */
  function Decimal(v: int): string
  {
    if v < 0 then "-" + Digits(-v) else Digits(v)
  }

  lemma {:induction false} DigitsValueOfDigits(n: nat)
    ensures DigitsValue(Digits(n)) == n
  {
    if n >= 10 {
      DigitsValueOfDigits(n / 10);
      var s := Digits(n);
      assert s[..|s| - 1] == Digits(n / 10);
    }
  }

  /** Every 32-bit integer written in decimal parses back to itself. */
  lemma ParseDecimalRoundTrip(v: int)
    requires IntMin <= v <= IntMax
    ensures ParseIntStrict(Decimal(v)) == Some(v)
  {
    var text := Decimal(v);
    if v < 0 {
      DigitsValueOfDigits(-v);
      assert text[1..] == Digits(-v);
    } else {
      DigitsValueOfDigits(v);
    }
  }

  /** Leading whitespace is skipped ... */
  lemma LeadingSpaceIgnored(c: char, text: string)
    requires IsSpace(c)
    ensures ParseIntStrict([c] + text) == ParseIntStrict(text)
  {
    var t := [c] + text;
    assert t[1..] == text;
    assert LeadingSpaces(t) == 1 + LeadingSpaces(text);
    assert t[LeadingSpaces(t)..] == text[LeadingSpaces(text)..];
  }

  /** ... but anything after the number, whitespace included, makes it invalid. */
  lemma TrailingCharacterRejected(text: string, c: char)
    requires !IsDigit(c)
    ensures ParseIntStrict(text + [c]) == None
  {
    var t := text + [c];
    var rest := t[LeadingSpaces(t)..];
    if |rest| > 0 {
      assert rest[|rest| - 1] == c;
    }
  }
}
