/**
 * packages/messages/lambdas/streaming/bedrock_utils.py: the snake-to-camel alias
 * generator, the field validators of the Bedrock model configuration, and the event
 * dispatch of `call_bedrock_converse`.
 *
 * The Bedrock client is not modelled: the response of `converse_stream` is an input, and
 * its stream a sequence of events, each given by its top-level keys and, for a
 * `contentBlockDelta` event, the `delta.text` it carries. Float fields (temperature,
 * topP) are left out.
 */
module Bedrock {
  import opened Wrappers
  import opened Text

  // ---------------------------------------------------------------- to_camel

  /** Python's `str.capitalize()` on ASCII letters: first character upper, the rest lower. */
  function Capitalize(w: string): (r: string)
    ensures |r| == |w|
    ensures |w| > 0 ==> r[0] == UpperChar(w[0])
    ensures forall i :: 0 < i < |w| ==> r[i] == LowerChar(w[i])
  {
    if w == "" then "" else [UpperChar(w[0])] + Lower(w[1..])
  }

  function CapitalizeAll(words: seq<string>): (r: seq<string>)
    ensures |r| == |words| && forall i :: 0 <= i < |words| ==> r[i] == Capitalize(words[i])
  {
    seq(|words|, i requires 0 <= i < |words| => Capitalize(words[i]))
  }

  /** `to_camel`: the first "_"-separated part as it is, the later ones capitalised. */
  function ToCamel(s: string): string {
    var parts := Split(s, '_');
    if |parts| > 1 then parts[0] + Flatten(CapitalizeAll(parts[1..])) else s
  }

  /** A name without "_" is returned unchanged; a name with one is its first part followed
      by the later parts capitalised. */
  lemma ToCamelParts(s: string)
    ensures '_' !in s ==> ToCamel(s) == s
    ensures '_' in s ==> var parts := Split(s, '_');
      |parts| > 1 && ToCamel(s) == parts[0] + Flatten(CapitalizeAll(parts[1..]))
  {
  }

  /** The result holds no "_". */
  lemma ToCamelHasNoUnderscore(s: string)
    ensures '_' !in ToCamel(s)
  {
    var parts := Split(s, '_');
    if |parts| > 1 {
      var caps := CapitalizeAll(parts[1..]);
      forall i, j | 0 <= i < |caps| && 0 <= j < |caps[i]|
        ensures caps[i][j] != '_'
      {
        assert parts[1..][i] == parts[i + 1];
        assert '_' !in parts[i + 1];
      }
      FlattenEach(caps, c => c != '_');
      var r := ToCamel(s);
      forall k | 0 <= k < |r|
        ensures r[k] != '_'
      {
        if k >= |parts[0]| {
          assert r[k] == Flatten(caps)[k - |parts[0]|];
        }
      }
    } else {
      ToCamelParts(s);
    }
  }

  lemma LowerConcat(a: string, b: string)
    ensures Lower(a + b) == Lower(a) + Lower(b)
  {
  }

  lemma {:induction false} LowerCapitalizeAll(words: seq<string>)
    ensures Lower(Flatten(CapitalizeAll(words))) == Lower(Flatten(words))
  {
    if words != [] {
      var n := |words| - 1;
      LowerCapitalizeAll(words[..n]);
      assert CapitalizeAll(words)[..n] == CapitalizeAll(words[..n]);
      assert Lower(Capitalize(words[n])) == Lower(words[n]);
      LowerConcat(Flatten(CapitalizeAll(words[..n])), Capitalize(words[n]));
      LowerConcat(Flatten(words[..n]), words[n]);
    }
  }

  /** Ignoring case, the result is the "_"-separated parts run together: only the "_"
      characters are dropped. */
  lemma ToCamelFoldsCase(s: string)
    ensures Lower(ToCamel(s)) == Lower(Flatten(Split(s, '_')))
  {
    var parts := Split(s, '_');
    if |parts| > 1 {
      assert parts == [parts[0]] + parts[1..];
      FlattenConcat([parts[0]], parts[1..]);
      assert Flatten([parts[0]]) == parts[0];
      LowerCapitalizeAll(parts[1..]);
      LowerConcat(parts[0], Flatten(CapitalizeAll(parts[1..])));
      LowerConcat(parts[0], Flatten(parts[1..]));
    } else {
      assert Join(parts, "_") == parts[0];
      assert Flatten(parts) == parts[0];
    }
  }

  // ---------------------------------------------------------------- validators

  /** A rejected field: a declared constraint (`ge`, `le`, `min_length`) that fails, or a
      field validator that raises with its message. */
  datatype FieldError = ConstraintViolated(field: string) | ValueRejected(field: string, message: string)

  /** The validated fields of a ModelConfig with its BedrockConfig and InferenceConfig. */
  datatype ModelConfig = ModelConfig(modelId: string, maxTokens: Option<int>, id: string, prompt: string)

  /** `maxTokens`: absent, or within `ge=1, le=4096`. The field validator's own `v <= 0`
      test can no longer fail once `ge=1` holds. */
  function CheckMaxTokens(maxTokens: Option<int>): (r: seq<FieldError>)
    ensures r == [] <==> maxTokens.None? || 1 <= maxTokens.value <= 4096
  {
    if maxTokens.Some? && (maxTokens.value < 1 || maxTokens.value > 4096)
    then [ConstraintViolated("maxTokens")]
    else []
  }

  /** A required string with `min_length=1` whose validator refuses a blank value. */
  function CheckNonBlank(field: string, v: string, message: string): (r: seq<FieldError>)
    ensures r == [] <==> Strip(v) != ""
    ensures |r| <= 1
    ensures v != "" && Strip(v) == "" ==> r == [ValueRejected(field, message)]
  {
    if |v| < 1 then [ConstraintViolated(field)]
    else if Strip(v) == "" then [ValueRejected(field, message)]
    else []
  }

  /** The errors of all fields, in declaration order. */
  function ModelConfigErrors(c: ModelConfig): seq<FieldError> {
    CheckNonBlank("modelId", c.modelId, "modelId cannot be empty") +
    CheckMaxTokens(c.maxTokens) +
    CheckNonBlank("id", c.id, "Model ID cannot be empty") +
    CheckNonBlank("prompt", c.prompt, "Prompt cannot be empty")
  }

  function ValidateModelConfig(c: ModelConfig): Result<ModelConfig, seq<FieldError>> {
    var errors := ModelConfigErrors(c);
    if errors == [] then Success(c) else Failure(errors)
  }

  /** A configuration is accepted exactly when maxTokens is absent or in 1..4096 and the
      model id, the config id and the prompt are not blank once trimmed; it is then
      returned unchanged. */
  lemma ModelConfigAccepted(c: ModelConfig)
    ensures ValidateModelConfig(c).Success? <==>
      (c.maxTokens.None? || 1 <= c.maxTokens.value <= 4096) &&
      Strip(c.modelId) != "" && Strip(c.id) != "" && Strip(c.prompt) != ""
    ensures ValidateModelConfig(c).Success? ==> ValidateModelConfig(c).value == c
  {
  }

  // ---------------------------------------------------------------- the event stream

  /** A stream event: its top-level keys, and the text of its delta when it has one. */
  datatype Event = Event(keys: set<string>, deltaText: Option<string>)

  datatype GenericReason = CallFailed | NoStream | ErrorEvent | UnknownEvent

  datatype StreamError = GenericStreamingError(reason: GenericReason) | ThrottlingError

  /** What the loop does with one event. */
  datatype Action = Emit(text: Option<string>) | Skip | Raise(error: StreamError)

  /** The `if`/`elif` chain of the loop, in its order. */
  function ActionOf(e: Event): Action {
    if "contentBlockDelta" in e.keys then Emit(e.deltaText)
    else if "messageStart" in e.keys || "contentBlockStart" in e.keys ||
            "contentBlockStop" in e.keys || "messageStop" in e.keys || "metadata" in e.keys
    then Skip
    else if "internalServerException" in e.keys || "modelStreamErrorException" in e.keys ||
            "validationException" in e.keys || "serviceUnavailableException" in e.keys
    then Raise(GenericStreamingError(ErrorEvent))
    else if "throttlingException" in e.keys then Raise(ThrottlingError)
    else Raise(GenericStreamingError(UnknownEvent))
  }

  predicate Raises(e: Event) { ActionOf(e).Raise? }

  /** Index of the first event that raises, |events| when none does. */
  function FirstRaise(events: seq<Event>): (k: nat)
    ensures k <= |events|
    ensures forall j :: 0 <= j < k ==> !Raises(events[j])
    ensures k < |events| ==> Raises(events[k])
  {
    if events == [] then 0
    else if Raises(events[0]) then 0
    else
      var k := FirstRaise(events[1..]);
      assert forall j :: 1 <= j < k + 1 ==> events[j] == events[1..][j - 1];
      1 + k
  }

  /** The delta texts carried by the `contentBlockDelta` events, in order. */
  function DeltaTexts(events: seq<Event>): seq<string> {
    if events == [] then []
    else
      var n := |events| - 1;
      var e := events[n];
      DeltaTexts(events[..n]) +
      (if "contentBlockDelta" in e.keys && e.deltaText.Some? then [e.deltaText.value] else [])
  }

  /** The result of `converse_stream`: the call failed, or it answered with a stream that
      may be missing. */
  datatype ConverseResponse = CallRaised | Responded(stream: Option<seq<Event>>)

  /** `call_bedrock_converse`: the texts it yields and the error that ends it, if any. */
  method CallBedrockConverse(response: ConverseResponse)
    returns (yielded: seq<string>, error: Option<StreamError>)
    ensures response.CallRaised? ==>
      yielded == [] && error == Some(GenericStreamingError(CallFailed))
    ensures response.Responded? && response.stream.None? ==>
      yielded == [] && error == Some(GenericStreamingError(NoStream))
    ensures response.Responded? && response.stream.Some? ==>
      var events := response.stream.value;
      var k := FirstRaise(events);
      yielded == DeltaTexts(events[..k]) &&
      error == (if k < |events| then Some(ActionOf(events[k]).error) else None)
  {
    if response.CallRaised? {
      return [], Some(GenericStreamingError(CallFailed));
    }
    if response.stream.None? {
      return [], Some(GenericStreamingError(NoStream));
    }
    var stream := response.stream.value;
    yielded := [];
    var i := 0;
    while i < |stream|
      invariant i <= |stream|
      invariant forall j :: 0 <= j < i ==> !Raises(stream[j])
      invariant yielded == DeltaTexts(stream[..i])
    {
      var event := stream[i];
      assert stream[..i + 1][..i] == stream[..i];
      match ActionOf(event) {
        case Emit(text) =>
          if text.Some? {
            yielded := yielded + [text.value];
          }
        case Skip =>
        case Raise(e) =>
          return yielded, Some(e);
      }
      i := i + 1;
    }
    assert stream[..i] == stream;
    return yielded, None;
  }

  // ---------------------------------------------------------------- properties

  /** An event raises exactly when it is neither a delta nor one of the five informational
      kinds; a ThrottlingError needs a `throttlingException` key and none of the keys
      tested before it, and every other raise is a GenericStreamingError. */
  lemma RaisesExactly(e: Event)
    ensures Raises(e) <==>
      !("contentBlockDelta" in e.keys || "messageStart" in e.keys || "contentBlockStart" in e.keys ||
        "contentBlockStop" in e.keys || "messageStop" in e.keys || "metadata" in e.keys)
    ensures ActionOf(e) == Raise(ThrottlingError) <==>
      Raises(e) && "throttlingException" in e.keys &&
      !("internalServerException" in e.keys || "modelStreamErrorException" in e.keys ||
        "validationException" in e.keys || "serviceUnavailableException" in e.keys)
  {
  }

  /** A stream with no raising event yields exactly the delta texts, in order, and ends
      without error; informational events yield nothing. */
  lemma {:induction false} DeltaTextsOnlyFromDeltas(events: seq<Event>)
    ensures |DeltaTexts(events)| <= |events|
    ensures (forall j :: 0 <= j < |events| ==> !("contentBlockDelta" in events[j].keys)) ==>
      DeltaTexts(events) == []
  {
    if events != [] {
      DeltaTextsOnlyFromDeltas(events[..|events| - 1]);
    }
  }
}
