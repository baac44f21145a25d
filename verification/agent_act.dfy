/** The act step of the caddie agent: find the tool the model chose by
    name and bring the model's tool input into the `{"input": {...}}` shape
    the tools take. A dictionary is passed on as it is; a string that looks
    like a dictionary is parsed as one; a `key=value, ...` string is scanned
    into pairs whose values are coerced to booleans, numbers or strings;
    anything else is wrapped as `{"value": input}`. */
module AgentAct {
  import opened Numeric
  import opened Text
  import opened ToolValues

  /** The loop over `tools` that stops at the first tool of that name. */
  method FindTool(tools: seq<string>, name: string) returns (idx: int)
    ensures -1 <= idx < |tools|
    ensures idx >= 0 ==> tools[idx] == name && forall j :: 0 <= j < idx ==> tools[j] != name
    ensures idx == -1 <==> name !in tools
  {
    idx := -1;
    var i := 0;
    while i < |tools|
      invariant 0 <= i <= |tools|
      invariant forall j :: 0 <= j < i ==> tools[j] != name
    {
      if tools[i] == name {
        idx := i;
        break;
      }
      i := i + 1;
    }
  }

  // ---------------------------------------------------------------- dictionary strings

  /** What a parser (ast.literal_eval, json.loads) makes of a string. */
  datatype ParseOutcome = Parsed(v: Value) | ParseFailed(message: string)

  datatype Result<T> = Ok(value: T) | Err(message: string)

  /** The string is taken for a dictionary literal. The second alternative
      of the source's test is implied by the first. */
  predicate LooksLikeDict(s: string) {
    (StartsWith(s, "{") && EndsWith(s, "}")) || (StartsWith(s, "{'") && EndsWith(s, "'}"))
  }

  lemma LooksLikeDictIsBraces(s: string)
    ensures LooksLikeDict(s) <==> StartsWith(s, "{") && EndsWith(s, "}")
  {
    if StartsWith(s, "{'") && EndsWith(s, "'}") {
      assert s[..1] == s[..2][..1];
      assert s[|s| - 1..] == s[|s| - 2..][1..];
    }
  }

  /** A parsed value is accepted only when it is a dictionary. */
  function AsDict(v: Value): (r: Result<Dict>)
    ensures r.Ok? <==> v.VDict?
    ensures r.Ok? ==> r.value == v.entries
  {
    if v.VDict? then Ok(v.entries) else Err("Error: Expected dictionary, got " + TypeName(v))
  }

  /** literal_eval first; when it raises, json.loads of the string with
      single quotes turned into double quotes; when both raise, an error
      carrying both messages. */
  function DictFromBraces(s: string, literalEval: string -> ParseOutcome, jsonLoads: string -> ParseOutcome): (r: Result<Dict>)
    ensures literalEval(s).Parsed? ==> r == AsDict(literalEval(s).v)
    ensures literalEval(s).ParseFailed? && jsonLoads(ReplaceChar(s, '\'', '"')).Parsed? ==>
              r == AsDict(jsonLoads(ReplaceChar(s, '\'', '"')).v)
    ensures r.Err? && literalEval(s).ParseFailed? && jsonLoads(ReplaceChar(s, '\'', '"')).ParseFailed? ==>
              r.message == "Error parsing dictionary input: " + literalEval(s).message
                           + ". JSON error: " + jsonLoads(ReplaceChar(s, '\'', '"')).message
  {
    match literalEval(s)
    case Parsed(v) => AsDict(v)
    case ParseFailed(e) =>
      match jsonLoads(ReplaceChar(s, '\'', '"'))
      case Parsed(v) => AsDict(v)
      case ParseFailed(je) => Err("Error parsing dictionary input: " + e + ". JSON error: " + je)
  }

  // ---------------------------------------------------------------- key=value scanning

  /** The characters of `[a-zA-Z_]`. */
  predicate IsKeyChar(c: char) {
    ('a' <= c <= 'z') || ('A' <= c <= 'Z') || c == '_'
  }

  /** Length of the run of key characters s starts with. */
  function KeyRun(s: string): (n: nat)
    ensures n <= |s|
    ensures forall i :: 0 <= i < n ==> IsKeyChar(s[i])
    ensures n < |s| ==> !IsKeyChar(s[n])
  {
    if s != [] && IsKeyChar(s[0]) then 1 + KeyRun(s[1..]) else 0
  }

  /** Length of the run of non-comma characters s starts with. */
  function ValueRun(s: string): (n: nat)
    ensures n <= |s|
    ensures forall i :: 0 <= i < n ==> s[i] != ','
    ensures n < |s| ==> s[n] == ','
  {
    if s != [] && s[0] != ',' then 1 + ValueRun(s[1..]) else 0
  }

  /** A match of `([a-zA-Z_]+)=([^,]+)(?:,|$)` at the start of a string:
      the key, the value, and how many characters the match consumes. */
  datatype Match = Match(key: string, value: string, length: nat)

  /** The pattern at the start of s. The greedy key run must be followed by
      '=' (a shorter key would be followed by a letter), and the greedy
      value run always ends at a comma, which is consumed, or at the end. */
  function MatchAt(s: string): (m: Option<Match>)
    ensures m.Some? ==> 0 < m.value.length <= |s|
    ensures m.Some? ==> m.value.key != [] && forall i :: 0 <= i < |m.value.key| ==> IsKeyChar(m.value.key[i])
    ensures m.Some? ==> m.value.value != [] && ',' !in m.value.value
  {
    var k := KeyRun(s);
    if k == 0 || k >= |s| || s[k] != '=' then None
    else
      var rest := s[k + 1..];
      var v := ValueRun(rest);
      if v == 0 then None
      else Some(Match(s[..k], rest[..v], k + 1 + v + (if v < |rest| then 1 else 0)))
  }

  /** re.findall of the pattern: scanning left to right, a match is taken
      and the scan resumes after it; where none starts, the scan moves on
      by one character. */
  function FindAll(s: string): (r: seq<(string, string)>)
    ensures forall i :: 0 <= i < |r| ==> r[i].0 != [] && r[i].1 != [] && ',' !in r[i].1
    ensures forall i, j :: 0 <= i < |r| && 0 <= j < |r[i].0| ==> IsKeyChar(r[i].0[j])
    decreases |s|
  {
    if s == [] then []
    else
      var m := MatchAt(s);
      if m.Some? then [(m.value.key, m.value.value)] + FindAll(s[m.value.length..])
      else FindAll(s[1..])
  }

  /** Python's value coercion of a scanned value: true/false in any case
      become booleans, digits with dots a float (a value float() rejects,
      such as "1.2.3", stays a string), digits alone an integer, and
      anything else stays a string. */
  function Coerce(value: string): (r: Value)
    ensures r.VBool? <==> Lower(value) == "true" || Lower(value) == "false"
    ensures r.VBool? ==> r.b == (Lower(value) == "true")
    ensures r.VFloat? <==> CountChar(value, '.') == 1 && IsDigits(RemoveChar(value, '.'))
    ensures r.VFloat? ==> r.f == DecimalValue(value)
    ensures r.VInt? <==> IsDigits(value)
    ensures r.VInt? ==> r.i == ParseNat(value)
    ensures r.VStr? ==> r.s == value
  {
    NumeralsAreNotWords(value);
    if Lower(value) == "true" then VBool(true)
    else if Lower(value) == "false" then VBool(false)
    else if '.' in value && IsDigits(RemoveChar(value, '.')) then
      (if CountChar(value, '.') == 1 then VFloat(DecimalValue(value)) else VStr(value))
    else if IsDigits(value) then VInt(ParseNat(value))
    else VStr(value)
  }

  /** A value with a dot or made of digits is neither "true" nor "false",
      and one dot counted is one dot present. */
  lemma NumeralsAreNotWords(value: string)
    ensures CountChar(value, '.') > 0 ==> '.' in value
    ensures IsDigits(value) ==> '.' !in value
    ensures '.' in value || IsDigits(value) ==> Lower(value) != "true" && Lower(value) != "false"
  {
    if CountChar(value, '.') > 0 {
      CountedOccurs(value, '.');
    }
    if '.' in value {
      var i :| 0 <= i < |value| && value[i] == '.';
      assert Lower(value)[i] == '.';
      assert '.' !in "true" && '.' !in "false";
    }
    if IsDigits(value) {
      assert Lower(value)[0] == value[0];
    }
  }

  /** The value of digits with one decimal point. */
  function DecimalValue(s: string): real {
    var dot := DotIndex(s);
    var whole := RemoveChar(s[..dot], '.');
    var frac := RemoveChar(s[dot..], '.');
    if AllDigits(whole) && AllDigits(frac) then ParseNat(whole) as real + ParseNat(frac) as real / Pow10(|frac|) as real
    else 0.0
  }

  function DotIndex(s: string): (i: nat)
    ensures i <= |s|
  {
    if s == [] || s[0] == '.' then 0 else 1 + DotIndex(s[1..])
  }

  function Pow10(n: nat): (p: nat)
    ensures p >= 1
  {
    if n == 0 then 1 else 10 * Pow10(n - 1)
  }

  /** A scanned pair as it is stored: key and value stripped, the value
      coerced. */
  function Entry(pair: (string, string)): (string, Value) {
    (Strip(pair.0), Coerce(Strip(pair.1)))
  }

  /** Entries stored one after another, a later key overwriting an
      earlier one. */
  function Store(entries: seq<(string, Value)>): Dict {
    if entries == [] then map[]
    else
      var n := |entries| - 1;
      Store(entries[..n])[entries[n].0 := entries[n].1]
  }

  /** The parsed_input dictionary the scanned pairs give. */
  function PairsDict(pairs: seq<(string, string)>): Dict {
    Store(seq(|pairs|, i requires 0 <= i < |pairs| => Entry(pairs[i])))
  }

  /** The loop that fills parsed_input from the matches. */
  method BuildParsed(pairs: seq<(string, string)>) returns (parsed: Dict)
    ensures parsed == PairsDict(pairs)
  {
    ghost var entries := seq(|pairs|, i requires 0 <= i < |pairs| => Entry(pairs[i]));
    parsed := map[];
    var i := 0;
    while i < |pairs|
      invariant 0 <= i <= |pairs|
      invariant parsed == Store(entries[..i])
    {
      var key := Strip(pairs[i].0);
      var value := Strip(pairs[i].1);
      assert entries[i] == (key, Coerce(value));
      assert entries[..i + 1][..i] == entries[..i];
      assert Store(entries[..i + 1]) == Store(entries[..i])[key := Coerce(value)];
      parsed := parsed[key := Coerce(value)];
      i := i + 1;
    }
    assert entries[..i] == entries;
  }

  /** The stored dictionary holds exactly the stored keys. */
  lemma {:induction false} StoredKeys(entries: seq<(string, Value)>)
    ensures forall k :: k in Store(entries) <==> exists i :: 0 <= i < |entries| && entries[i].0 == k
  {
    if entries != [] {
      var n := |entries| - 1;
      var prefix := entries[..n];
      StoredKeys(prefix);
      assert forall i :: 0 <= i < n ==> prefix[i] == entries[i];
    }
  }

  /** A key holds the value of its last occurrence. */
  lemma {:induction false} LastStoredWins(entries: seq<(string, Value)>, i: nat)
    requires i < |entries|
    requires forall j :: i < j < |entries| ==> entries[j].0 != entries[i].0
    ensures entries[i].0 in Store(entries) && Store(entries)[entries[i].0] == entries[i].1
  {
    var n := |entries| - 1;
    if i < n {
      var prefix := entries[..n];
      assert prefix[i] == entries[i];
      assert forall j :: i < j < |prefix| ==> prefix[j] == entries[j];
      LastStoredWins(prefix, i);
    }
  }

  /** The dictionary holds exactly the stripped scanned keys. */
  lemma ScannedKeys(pairs: seq<(string, string)>)
    ensures forall k :: k in PairsDict(pairs) <==> exists i :: 0 <= i < |pairs| && Strip(pairs[i].0) == k
  {
    var entries := seq(|pairs|, i requires 0 <= i < |pairs| => Entry(pairs[i]));
    StoredKeys(entries);
    assert forall i :: 0 <= i < |pairs| ==> entries[i].0 == Strip(pairs[i].0);
  }

  /** A key holds the coerced value of its last occurrence. */
  lemma LastDuplicateWins(pairs: seq<(string, string)>, i: nat)
    requires i < |pairs|
    requires forall j :: i < j < |pairs| ==> Strip(pairs[j].0) != Strip(pairs[i].0)
    ensures Strip(pairs[i].0) in PairsDict(pairs)
    ensures PairsDict(pairs)[Strip(pairs[i].0)] == Coerce(Strip(pairs[i].1))
  {
    var entries := seq(|pairs|, i requires 0 <= i < |pairs| => Entry(pairs[i]));
    assert forall j :: 0 <= j < |pairs| ==> entries[j] == Entry(pairs[j]);
    LastStoredWins(entries, i);
  }

  // ---------------------------------------------------------------- the act step

  /** The `structured_input["input"]` the tool receives, or the error step. */
  function NormalisedInput(toolInput: Value, literalEval: string -> ParseOutcome, jsonLoads: string -> ParseOutcome): (r: Result<Dict>)
    ensures toolInput.VDict? ==> r == Ok(toolInput.entries)
    ensures !toolInput.VDict? && !toolInput.VStr? ==> r == Ok(map["value" := toolInput])
    ensures r.Err? ==> toolInput.VStr? && LooksLikeDict(toolInput.s)
  {
    match toolInput
    case VDict(m) => Ok(m)
    case VStr(s) =>
      if LooksLikeDict(s) then DictFromBraces(s, literalEval, jsonLoads)
      else if '=' in s && ',' in s then
        var parsed := PairsDict(FindAll(s));
        if |parsed| != 0 then Ok(parsed) else Ok(map["value" := toolInput])
      else Ok(map["value" := toolInput])
    case _ => Ok(map["value" := toolInput])
  }

  /** What the act step does: invoke the tool at that index with the given
      input, or record an observation without invoking anything. */
  datatype Step = Invoke(tool: nat, input: Dict) | Observation(text: string)

  function NotFound(name: string): string {
    "Tool '" + name + "' not found"
  }

  /** The normalisation branches of act_node: a dictionary as it is, a
      dictionary literal parsed, a `key=value, ...` string scanned (and
      wrapped when nothing was found), anything else wrapped. */
  method Normalise(toolInput: Value, literalEval: string -> ParseOutcome, jsonLoads: string -> ParseOutcome)
    returns (r: Result<Dict>)
    ensures r == NormalisedInput(toolInput, literalEval, jsonLoads)
  {
    if toolInput.VDict? {
      return Ok(toolInput.entries);
    }
    if !toolInput.VStr? {
      return Ok(map["value" := toolInput]);
    }
    var s := toolInput.s;
    if (StartsWith(s, "{") && EndsWith(s, "}")) || (StartsWith(s, "{'") && EndsWith(s, "'}")) {
      r := DictFromBraces(s, literalEval, jsonLoads);
    } else if '=' in s && ',' in s {
      var parsed := BuildParsed(FindAll(s));
      if |parsed| != 0 {
        r := Ok(parsed);
      } else {
        r := Ok(map["value" := toolInput]);
      }
    } else {
      r := Ok(map["value" := toolInput]);
    }
  }

  /** act_node up to the tool call: an unknown tool name is reported; a
      known one is invoked with the normalised input, unless normalising
      it failed, which is reported instead. */
  method ActNode(tools: seq<string>, toolName: string, toolInput: Value,
                 literalEval: string -> ParseOutcome, jsonLoads: string -> ParseOutcome) returns (step: Step)
    ensures toolName !in tools ==> step == Observation(NotFound(toolName))
    ensures toolName in tools && NormalisedInput(toolInput, literalEval, jsonLoads).Err? ==>
              step == Observation(NormalisedInput(toolInput, literalEval, jsonLoads).message)
    ensures toolName in tools && NormalisedInput(toolInput, literalEval, jsonLoads).Ok? ==>
              step.Invoke? && step.input == NormalisedInput(toolInput, literalEval, jsonLoads).value
              && step.tool < |tools| && tools[step.tool] == toolName
              && forall j :: 0 <= j < step.tool ==> tools[j] != toolName
  {
    var idx := FindTool(tools, toolName);
    if idx < 0 {
      return Observation(NotFound(toolName));
    }
    var input := Normalise(toolInput, literalEval, jsonLoads);
    if input.Err? {
      return Observation(input.message);
    }
    step := Invoke(idx, input.value);
  }

  // ---------------------------------------------------------------- properties

  /** A string without both '=' and ',' that is not a dictionary literal,
      such as "a=1", reaches the tool as {"value": s}. */
  lemma PlainStringIsWrapped(s: string, literalEval: string -> ParseOutcome, jsonLoads: string -> ParseOutcome)
    requires !LooksLikeDict(s) && ('=' !in s || ',' !in s)
    ensures NormalisedInput(VStr(s), literalEval, jsonLoads) == Ok(map["value" := VStr(s)])
  {
  }

  /** Printing a number and coercing it back gives the integer. */
  lemma CoerceNumeral(n: nat)
    ensures Coerce(NatToString(n)) == VInt(n)
  {
    var s := NatToString(n);
    assert s[0] != 't' && s[0] != 'f' && LowerChar(s[0]) == s[0];
    assert Lower(s)[0] == s[0];
    assert '.' !in s;
    ParseNatToString(n);
  }

  /** A boolean comes only from "true" or "false", in any letter case. */
  lemma CoerceBoolean(value: string)
    ensures Coerce(value).VBool? <==> Lower(value) == "true" || Lower(value) == "false"
    ensures Coerce(value).VBool? ==> Coerce(value).b == (Lower(value) == "true")
  {
  }

  /** A value with more than one dot never becomes a number. */
  lemma MultipleDotsStayString(value: string)
    requires CountChar(value, '.') >= 2
    ensures Coerce(value) == VStr(value) || Coerce(value).VBool?
    ensures Lower(value) != "true" && Lower(value) != "false" ==> Coerce(value) == VStr(value)
  {
    CountedOccurs(value, '.');
  }

  /** A character counted in s occurs in s. */
  lemma {:induction false} CountedOccurs(s: string, c: char)
    requires CountChar(s, c) > 0
    ensures c in s
  {
    if s[0] != c {
      CountedOccurs(s[1..], c);
      var i :| 0 <= i < |s[1..]| && s[1..][i] == c;
      assert s[i + 1] == c;
    }
  }

  /** `key=value` pairs joined by commas, as a tool input is commonly
      written. */
  function Render(pairs: seq<(string, string)>): string {
    if pairs == [] then ""
    else if |pairs| == 1 then pairs[0].0 + "=" + pairs[0].1
    else pairs[0].0 + "=" + pairs[0].1 + "," + Render(pairs[1..])
  }

  /** Keys of key characters and non-empty values without commas. */
  predicate WellFormedPairs(pairs: seq<(string, string)>) {
    forall i :: 0 <= i < |pairs| ==>
      pairs[i].0 != [] && (forall j :: 0 <= j < |pairs[i].0| ==> IsKeyChar(pairs[i].0[j]))
      && pairs[i].1 != [] && ',' !in pairs[i].1
  }

  /** Scanning rendered pairs gives the pairs back. */
  lemma {:induction false} ScanRendered(pairs: seq<(string, string)>)
    requires WellFormedPairs(pairs)
    ensures FindAll(Render(pairs)) == pairs
  {
    if pairs != [] {
      var k, v, rest := pairs[0].0, pairs[0].1, pairs[1..];
      var tail := if rest == [] then "" else "," + Render(rest);
      assert Render(pairs) == k + "=" + v + tail;
      assert FindAll(Render(pairs)) == [(k, v)] + FindAll(if tail == [] then [] else tail[1..]) by {
        ScanFirstPair(k, v, tail);
      }
      if rest != [] {
        assert tail[1..] == Render(rest);
        WellFormedRest(pairs);
        ScanRendered(rest);
      }
      assert pairs == [(k, v)] + rest;
    }
  }

  /** The pairs after the first are well formed too. */
  lemma WellFormedRest(pairs: seq<(string, string)>)
    requires pairs != [] && WellFormedPairs(pairs)
    ensures WellFormedPairs(pairs[1..])
  {
    assert forall i :: 0 <= i < |pairs| - 1 ==> pairs[1..][i] == pairs[i + 1];
  }

  /** The first rendered pair is found first, and scanning resumes after
      the comma that follows it. */
  lemma ScanFirstPair(k: string, v: string, tail: string)
    requires k != [] && forall j :: 0 <= j < |k| ==> IsKeyChar(k[j])
    requires v != [] && ',' !in v
    requires tail == [] || tail[0] == ','
    ensures FindAll(k + "=" + v + tail) == [(k, v)] + FindAll(if tail == [] then [] else tail[1..])
  {
    var head := k + "=" + v;
    var s := head + tail;
    var len := |head| + (if tail == [] then 0 else 1);
    MatchRendered(k, v, tail);
    ScanStep(s, Match(k, v, len));
    if tail == [] {
      assert s[len..] == [];
    } else {
      assert s[|head|..] == tail;
      assert s[len..] == tail[1..];
    }
  }

  /** A match at the start is the first pair found; scanning resumes
      after it. */
  lemma ScanStep(s: string, m: Match)
    requires s != [] && MatchAt(s) == Some(m)
    ensures FindAll(s) == [(m.key, m.value)] + FindAll(s[m.length..])
  {
  }

  /** The match at the start of one rendered pair. */
  lemma MatchRendered(k: string, v: string, tail: string)
    requires k != [] && forall j :: 0 <= j < |k| ==> IsKeyChar(k[j])
    requires v != [] && ',' !in v
    requires tail == [] || tail[0] == ','
    ensures MatchAt(k + "=" + v + tail) == Some(Match(k, v, |k| + 1 + |v| + (if tail == [] then 0 else 1)))
  {
    var s := k + "=" + v + tail;
    KeyPart(k, v, tail);
    ValuePart(k, v, tail);
    MatchFound(s, k, v, |k| + 1 + |v| + (if tail == [] then 0 else 1));
  }

  /** The key run of a rendered pair stops at its '='. */
  lemma KeyPart(k: string, v: string, tail: string)
    requires forall j :: 0 <= j < |k| ==> IsKeyChar(k[j])
    ensures var s := k + "=" + v + tail;
            KeyRun(s) == |k| < |s| && s[..|k|] == k && s[|k|] == '='
  {
    var after := "=" + v + tail;
    assert k + "=" + v + tail == k + after;
    KeyRunOf(k, after);
  }

  /** After the '=', the value run of a rendered pair stops at the comma
      that starts the tail, or at the end. */
  lemma ValuePart(k: string, v: string, tail: string)
    requires ',' !in v
    requires tail == [] || tail[0] == ','
    ensures var s := k + "=" + v + tail;
            |k| < |s| && ValueRun(s[|k| + 1..]) == |v| && s[|k| + 1..][..|v|] == v
            && |s| - |k| - 1 == |v| + |tail|
  {
    var s := k + "=" + v + tail;
    assert s[|k| + 1..] == v + tail;
    ValueRunOf(v, tail);
    assert (v + tail)[..|v|] == v;
  }

  /** MatchAt unfolded once the key run and the value run are known. */
  lemma MatchFound(s: string, key: string, value: string, consumed: nat)
    requires 0 < |key| < |s| && KeyRun(s) == |key| && s[..|key|] == key && s[|key|] == '='
    requires 0 < |value| && ValueRun(s[|key| + 1..]) == |value| && s[|key| + 1..][..|value|] == value
    requires consumed == |key| + 1 + |value| + (if |value| < |s| - |key| - 1 then 1 else 0)
    ensures MatchAt(s) == Some(Match(key, value, consumed))
  {
  }

  lemma {:induction false} KeyRunOf(k: string, t: string)
    requires forall j :: 0 <= j < |k| ==> IsKeyChar(k[j])
    requires t != [] && !IsKeyChar(t[0])
    ensures KeyRun(k + t) == |k|
  {
    if k == [] {
      assert k + t == t;
    } else {
      assert (k + t)[0] == k[0];
      assert (k + t)[1..] == k[1..] + t;
      KeyRunOf(k[1..], t);
    }
  }

  lemma {:induction false} ValueRunOf(v: string, t: string)
    requires ',' !in v
    requires t == [] || t[0] == ','
    ensures ValueRun(v + t) == |v|
  {
    if v == [] {
      assert v + t == t;
    } else {
      assert (v + t)[0] == v[0];
      assert (v + t)[1..] == v[1..] + t;
      ValueRunOf(v[1..], t);
    }
  }

  /** A tool input written as two or more `key=value` pairs joined by
      commas reaches the tool as the dictionary of those pairs. */
  lemma RenderedPairsReachTool(pairs: seq<(string, string)>, literalEval: string -> ParseOutcome,
                               jsonLoads: string -> ParseOutcome)
    requires WellFormedPairs(pairs) && |pairs| >= 2
    ensures NormalisedInput(VStr(Render(pairs)), literalEval, jsonLoads) == Ok(PairsDict(pairs))
  {
    RenderedShape(pairs);
    ScanRendered(pairs);
    ScannedKeys(pairs);
    assert Strip(pairs[0].0) in PairsDict(pairs);
  }

  /** Rendered pairs are not a dictionary literal and hold both '=' and ','. */
  lemma RenderedShape(pairs: seq<(string, string)>)
    requires WellFormedPairs(pairs) && |pairs| >= 2
    ensures !LooksLikeDict(Render(pairs)) && '=' in Render(pairs) && ',' in Render(pairs)
  {
    PairShape(pairs[0].0, pairs[0].1, Render(pairs[1..]));
  }

  lemma PairShape(k: string, v: string, rest: string)
    requires k != [] && IsKeyChar(k[0])
    ensures var s := k + "=" + v + "," + rest;
            !LooksLikeDict(s) && '=' in s && ',' in s
  {
    var s := k + "=" + v + "," + rest;
    assert s[0] == k[0];
    assert !LooksLikeDict(s) by {
      LooksLikeDictIsBraces(s);
      assert s[..1] != "{";
    }
    assert s[|k|] == '=';
    assert s[|k| + 1 + |v|] == ',';
  }
}
