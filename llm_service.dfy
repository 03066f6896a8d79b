/**
 * The Gemini client wrapper (flashcards/core/services/llm_service.py): the
 * constructor's parameter checks, the prompt guard, the generation config and
 * the structured-output call. The network call itself is not modelled: its
 * reply is an input (`ApiReply`).
 */
module LlmService {
  import opened Wrappers
  import Text

  const MaxPromptLength: nat := 10000
  const MaxTemperature: real := 2.0

  /** Why the constructor raises. */
  datatype ConfigError = MissingApiKey | TemperatureOutOfRange | NonPositiveMaxTokens

  /** `__init__`'s checks, in order: the key (falling back to the settings value
      only when none is passed), the temperature, the token budget. On success,
      the key the client is built with. */
  function CheckServiceParams(apiKey: Option<string>, settingsKey: string,
                              temperature: real, maxOutputTokens: int): (r: Result<string, ConfigError>)
    ensures r.Success? <==> apiKey.GetOr(settingsKey) != "" && 0.0 <= temperature <= MaxTemperature
                            && maxOutputTokens > 0
    ensures r.Success? ==> r.value == apiKey.GetOr(settingsKey)
    ensures apiKey.GetOr(settingsKey) == "" ==> r == Failure(MissingApiKey)
    ensures apiKey.GetOr(settingsKey) != "" && (temperature < 0.0 || temperature > MaxTemperature)
            ==> r == Failure(TemperatureOutOfRange)
  {
    var key := if apiKey.None? then settingsKey else apiKey.value;
    if key == "" then Failure(MissingApiKey)
    else if temperature < 0.0 || temperature > MaxTemperature then Failure(TemperatureOutOfRange)
    else if maxOutputTokens <= 0 then Failure(NonPositiveMaxTokens)
    else Success(key)
  }

  /** An explicitly passed empty key is not replaced by the settings value. */
  lemma EmptyExplicitKeyIsRejected(settingsKey: string, temperature: real, maxOutputTokens: int)
    ensures CheckServiceParams(Some(""), settingsKey, temperature, maxOutputTokens) == Failure(MissingApiKey)
  {
  }

  /** The message of the missing-key error, which is the only constructor error
      the default parameters (0.7, 2048) can raise. */
  const MissingApiKeyMessage: string :=
    "GEMINI_API_KEY is not configured. Please set it in your .env file or pass it to the constructor."

  /** Why `_validate_prompt` raises. */
  datatype PromptError = EmptyPrompt | PromptTooLong(length: nat)

  /** `_validate_prompt`: a blank prompt is refused first, then one over 10,000
      characters. */
  function ValidatePrompt(prompt: string): (r: Option<PromptError>)
    ensures r == Some(EmptyPrompt) <==> Text.IsBlank(prompt)
    ensures r == Some(PromptTooLong(|prompt|)) <==> !Text.IsBlank(prompt) && |prompt| > MaxPromptLength
    ensures r.None? <==> !Text.IsBlank(prompt) && |prompt| <= MaxPromptLength
  {
    Text.StripEmptyIffBlank(prompt);
    if prompt == "" || Text.Strip(prompt) == "" then Some(EmptyPrompt)
    else if |prompt| > MaxPromptLength then Some(PromptTooLong(|prompt|))
    else None
  }

  /** The ValueError message of each prompt error. */
  function PromptErrorText(e: PromptError): string {
    match e
    case EmptyPrompt => "Prompt cannot be empty"
    case PromptTooLong(n) =>
      "Prompt length (" + Text.Decimal(n) + ") exceeds maximum allowed length ("
        + Text.Decimal(MaxPromptLength) + ")"
  }

  /** A value in the generation config dictionary. */
  datatype ConfigValue = RealValue(r: real) | IntValue(i: int) | TextValue(s: string) | SchemaValue(name: string)

  /** What `generate_structured` can raise once the prompt passed. */
  datatype LlmError =
    | InvalidPrompt(prompt: PromptError)
    | ApiFailure(detail: string)            // the client's APIError or other failure
    | MissingStructuredData                 // the reply had no parsed object
    | SchemaMismatch(detail: string)        // the parsed object failed the schema

  /** The string of each raised error. */
  function LlmErrorText(e: LlmError): string {
    match e
    case InvalidPrompt(p) => PromptErrorText(p)
    case ApiFailure(d) => d
    case MissingStructuredData => "API response did not contain structured data"
    case SchemaMismatch(d) => d
  }

  /** What the network call returns: an error, a reply without a parsed object,
      or a parsed object of payload type `P`. */
  datatype ApiReply<P> = ApiError(detail: string) | NoParsedData | Parsed(payload: P)

  /** The outcome of `generate_structured(prompt, schema)` given the API's reply;
      `validate` is the schema's `model_validate`. */
  function StructuredOutcome<P, T>(prompt: string, validate: P -> Result<T, string>,
                                   reply: ApiReply<P>): (r: Result<T, LlmError>)
    ensures ValidatePrompt(prompt).Some? ==> r == Failure(InvalidPrompt(ValidatePrompt(prompt).value))
    ensures r.Success? ==> ValidatePrompt(prompt).None? && reply.Parsed? && validate(reply.payload) == Success(r.value)
  {
    match ValidatePrompt(prompt)
    case Some(e) => Failure(InvalidPrompt(e))
    case None =>
      match reply
      case ApiError(d) => Failure(ApiFailure(d))
      case NoParsedData => Failure(MissingStructuredData)
      case Parsed(p) =>
        match validate(p)
        case Success(t) => Success(t)
        case Failure(d) => Failure(SchemaMismatch(d))
  }

  /** The prompt is checked before the API is consulted: for a refused prompt the
      reply makes no difference. */
  lemma RefusedPromptIgnoresReply<P, T>(prompt: string, validate: P -> Result<T, string>,
                                         reply1: ApiReply<P>, reply2: ApiReply<P>)
    requires Text.IsBlank(prompt) || |prompt| > MaxPromptLength
    ensures StructuredOutcome(prompt, validate, reply1).Failure?
    ensures StructuredOutcome(prompt, validate, reply1) == StructuredOutcome(prompt, validate, reply2)
  {
  }

  /** A configured Gemini client. The fields are set once by the constructor. */
  class GeminiService {
    const apiKey: string
    const model: string
    const systemInstruction: Option<string>
    const temperature: real
    const maxOutputTokens: int

    /** The parameters `__init__` lets through. */
    predicate Configured() {
      apiKey != "" && 0.0 <= temperature <= MaxTemperature && maxOutputTokens > 0
    }

    constructor (apiKey: string, model: string, systemInstruction: Option<string>,
                 temperature: real, maxOutputTokens: int)
      requires CheckServiceParams(Some(apiKey), "", temperature, maxOutputTokens).Success?
      ensures Configured()
      ensures this.apiKey == apiKey && this.model == model && this.systemInstruction == systemInstruction
      ensures this.temperature == temperature && this.maxOutputTokens == maxOutputTokens
    {
      this.apiKey := apiKey;
      this.model := model;
      this.systemInstruction := systemInstruction;
      this.temperature := temperature;
      this.maxOutputTokens := maxOutputTokens;
    }

    /** Python truthiness of `self._system_instruction`. */
    predicate HasSystemInstruction() {
      systemInstruction.Some? && systemInstruction.value != ""
    }

    /** `_build_config(**overrides)`: temperature and token budget, the system
        instruction when it is truthy, then the overrides on top. */
    method BuildConfig(overrides: map<string, ConfigValue>) returns (config: map<string, ConfigValue>)
      ensures config.Keys == {"temperature", "max_output_tokens"} + overrides.Keys
                             + (if HasSystemInstruction() then {"system_instruction"} else {})
      ensures forall k :: k in overrides ==> config[k] == overrides[k]
      ensures "temperature" !in overrides ==> config["temperature"] == RealValue(temperature)
      ensures "max_output_tokens" !in overrides ==> config["max_output_tokens"] == IntValue(maxOutputTokens)
      ensures "system_instruction" !in overrides && HasSystemInstruction()
              ==> config["system_instruction"] == TextValue(systemInstruction.value)
    {
      config := map["temperature" := RealValue(temperature), "max_output_tokens" := IntValue(maxOutputTokens)];
      if HasSystemInstruction() {
        config := config["system_instruction" := TextValue(systemInstruction.value)];
      }
      config := config + overrides;
    }

    /** `generate_structured(prompt, schema)`: validate the prompt, build the
        JSON-schema config, send it, and check the reply. `sent` is the config
        handed to the API, or None when the call was never made. */
    method GenerateStructured<P, T>(prompt: string, schemaName: string,
                                    validate: P -> Result<T, string>, reply: ApiReply<P>)
      returns (r: Result<T, LlmError>, sent: Option<map<string, ConfigValue>>)
      ensures r == StructuredOutcome(prompt, validate, reply)
      ensures sent.None? <==> ValidatePrompt(prompt).Some?
      ensures sent.Some? ==> sent.value.Keys == {"temperature", "max_output_tokens", "response_mime_type", "response_schema"}
                                                 + (if HasSystemInstruction() then {"system_instruction"} else {})
      ensures sent.Some? ==> sent.value["response_mime_type"] == TextValue("application/json")
                             && sent.value["response_schema"] == SchemaValue(schemaName)
                             && sent.value["temperature"] == RealValue(temperature)
                             && sent.value["max_output_tokens"] == IntValue(maxOutputTokens)
    {
      var promptError := ValidatePrompt(prompt);
      if promptError.Some? {
        return Failure(InvalidPrompt(promptError.value)), None;
      }
      var config := BuildConfig(map["response_mime_type" := TextValue("application/json"),
                                    "response_schema" := SchemaValue(schemaName)]);
      sent := Some(config);
      match reply {
        case ApiError(d) =>
          r := Failure(ApiFailure(d));
        case NoParsedData =>
          r := Failure(MissingStructuredData);
        case Parsed(p) =>
          var validated := validate(p);
          if validated.Success? {
            r := Success(validated.value);
          } else {
            r := Failure(SchemaMismatch(validated.error));
          }
      }
    }
  }

  /** `GeminiLLMService(...)`: either the checks of `__init__` raise, or a
      client holding the given parameters and the effective key. */
  method NewGeminiService(apiKey: Option<string>, settingsKey: string, model: string,
                          systemInstruction: Option<string>, temperature: real, maxOutputTokens: int)
    returns (r: Result<GeminiService, ConfigError>)
    ensures r.Failure? ==> CheckServiceParams(apiKey, settingsKey, temperature, maxOutputTokens) == Failure(r.error)
    ensures r.Success? ==> CheckServiceParams(apiKey, settingsKey, temperature, maxOutputTokens) == Success(r.value.apiKey)
    ensures r.Success? ==> fresh(r.value) && r.value.model == model && r.value.systemInstruction == systemInstruction
                           && r.value.temperature == temperature && r.value.maxOutputTokens == maxOutputTokens
  {
    var checked := CheckServiceParams(apiKey, settingsKey, temperature, maxOutputTokens);
    if checked.Failure? {
      return Failure(checked.error);
    }
    var svc := new GeminiService(checked.value, model, systemInstruction, temperature, maxOutputTokens);
    r := Success(svc);
  }
}
