/**
  Quiz-block extraction from the completion provider's message
  (`extract_quiz_content` and `save_parsed_quiz` in core/parser.py, and the
  older `clean_raw_quiz_data` in src/generate_outputs.py).

  The block is found by literal substring splitting, not by parsing fenced
  code blocks: it is `output.split("```json")[1].split("```")[0].strip()`.
 */
module QuizParser {
  import opened Wrappers
  import opened Strings
  import opened Errors
  import opened Json
  import opened Files

  const JsonFence: string := "```json"
  const Fence: string := "```"
  const NoBlockMessage: string := "JSON block not found"
  const InvalidJsonMessage: string := "OpenAI response did not contain valid JSON"

  /** `output.split("```json")[1].split("```")[0]`, before stripping. */
  function RawBlock(output: string): string
    requires Contains(output, JsonFence)
  {
    Split(Split(output, JsonFence)[1], Fence)[0]
  }

  /** `output.split("```json")[1].split("```")[0].strip()`. */
  function FencedBlock(output: string): string
    requires Contains(output, JsonFence)
  {
    Strip(RawBlock(output))
  }

  /** The raw block as `Before` and `After` give it. */
  lemma RawBlockParts(output: string)
    requires Contains(output, JsonFence)
    ensures RawBlock(output) == Before(Before(After(output, JsonFence), JsonFence), Fence)
  {
    SplitSecond(output, JsonFence);
    SplitFirst(Split(output, JsonFence)[1], Fence);
  }

  lemma JsonFenceStartsWithFence()
    ensures Fence != [] && |Fence| <= |JsonFence| && JsonFence[..|Fence|] == Fence
  {
  }

  /**
    The raw block is the text after the first "```json" up to the next "```"
    (or to the end when there is none), except where a second "```json"
    begins strictly inside that "```" (a longer run of backticks).
   */
  lemma RawBlockRule(output: string)
    requires Contains(output, JsonFence)
    ensures var rest := After(output, JsonFence);
      && (!Contains(rest, Fence) ==> RawBlock(output) == rest)
      && (Contains(rest, Fence)
          && (forall k :: Find(rest, Fence).value < k < Find(rest, Fence).value + |Fence|
                ==> !OccursAt(rest, JsonFence, k))
          ==> RawBlock(output) == rest[..Find(rest, Fence).value])
  {
    RawBlockParts(output);
    JsonFenceStartsWithFence();
    BeforeBefore(After(output, JsonFence), JsonFence, Fence);
  }

  /** A run of four backticks before a second "```json" keeps one backtick. */
  lemma FencedBlockStraddle()
    ensures FencedBlock(JsonFence + "[1]`" + JsonFence) == "[1]`"
  {
    var piece := "[1]`";
    var rest := piece + JsonFence;
    var output := JsonFence + rest;
    assert JsonFence + piece + JsonFence == output;
    AfterLeading(JsonFence, rest);
    forall j: nat | j < |piece| ensures !OccursAt(rest, JsonFence, j) {
      assert rest[j + 3] != JsonFence[3];
    }
    BeforeTrailing(piece, JsonFence);
    forall k: nat ensures !OccursAt(piece, Fence, k) {
      if k + 3 <= 4 { assert piece[k + 2] != '`' || piece[k] != '`'; }
    }
    ContainsIff(piece, Fence);
    RawBlockParts(output);
    StripStripped(piece);
  }

  /** `response_dict['choices'][0]['message']['content']`. */
  function MessageContent(response: Json): Result<Json, PyError> {
    match Subscript(response, "choices")
    case Failure(e) => Failure(e)
    case Success(choices) =>
      match First(choices)
      case Failure(e) => Failure(e)
      case Success(choice) =>
        match Subscript(choice, "message")
        case Failure(e) => Failure(e)
        case Success(message) => Subscript(message, "content")
  }

  /**
    `"```json" in output`: a substring test on a string, a membership test on
    a list or a dict, and a `TypeError` on anything else.
   */
  function HasJsonFence(output: Json): Result<bool, PyError> {
    match output
    case JString(s) => Success(Contains(s, JsonFence))
    case JArray(items) => Success(JString(JsonFence) in items)
    case JObject(m) => Success(JsonFence in m)
    case _ => Failure(TypeError)
  }

  /**
    Lines 11-15 of core/parser.py (and 12-18 of src/generate_outputs.py):
    reach the message, check for the fence, cut the block out. Errors are
    the ones Python raises there, unwrapped.
   */
  function LocateBlock(response: Json): (r: Result<string, PyError>)
    ensures MessageContent(response).Success? && MessageContent(response).value.JString?
      ==> var s := MessageContent(response).value.s;
          r == if Contains(s, JsonFence) then Success(FencedBlock(s))
               else Failure(ValueError(NoBlockMessage))
  {
    match MessageContent(response)
    case Failure(e) => Failure(e)
    case Success(output) =>
      match HasJsonFence(output)
      case Failure(e) => Failure(e)
      case Success(found) =>
        if !found then Failure(ValueError(NoBlockMessage))
        else if output.JString? then Success(FencedBlock(output.s))
        // a list or dict has no `split` method
        else Failure(AttributeError)
  }

  /** `clean_raw_quiz_data`: decode errors propagate as `JSONDecodeError`. */
  function CleanRawQuizData(raw: Json, decode: Decoder): Result<Json, PyError> {
    match LocateBlock(raw)
    case Failure(e) => Failure(e)
    case Success(block) =>
      match decode(block)
      case None => Failure(JsonDecodeError)
      case Some(data) => Success(data)
  }

  /** What `extract_quiz_content` returns or raises, and what it saved. */
  datatype Extraction = Extraction(result: Result<Json, PyError>, saved: Option<Json>)

  /**
    `extract_quiz_content` as a value: every exception is re-raised as
    `ValueError("Error extracting quiz content: ...")`. `canOpen` says
    whether `save_parsed_quiz` can open its file; when it cannot, `OSError`
    is raised and nothing is saved. The decoded value is saved before
    `len(data)` is logged, so a number, boolean or null block is saved and
    then fails with `TypeError`.
   */
  function Extract(response: Json, decode: Decoder, canOpen: bool): Extraction {
    match LocateBlock(response)
    case Failure(e) => Extraction(Failure(QuizExtractionError(e)), None)
    case Success(block) =>
      match decode(block)
      case None =>
        Extraction(Failure(QuizExtractionError(ValueError(InvalidJsonMessage))), None)
      case Some(data) =>
        if !canOpen then Extraction(Failure(QuizExtractionError(OsError)), None)
        else Extraction(if HasLen(data) then Success(data) else Failure(QuizExtractionError(TypeError)),
                   Some(data))
  }

  /** `PROCESSED_DIR / f"{source_id}.json"`. */
  function QuizPath(processedDir: string, sourceId: string): string {
    PathJoin(processedDir, sourceId + ".json")
  }

  /**
    `save_parsed_quiz`: write `data` as the JSON file at `path`, or raise
    `OSError` with nothing written when `open` fails (`canOpen` is false).
   */
  method SaveParsedQuiz(disk: Disk, data: Json, path: string, canOpen: bool) returns (err: Option<PyError>)
    modifies disk
    ensures !canOpen ==> err == Some(OsError) && disk.files == old(disk.files)
    ensures canOpen ==> err.None? && disk.files == old(disk.files)[path := JsonFile(data)]
  {
    if !canOpen {
      return Some(OsError);
    }
    disk.Write(path, JsonFile(data));
    err := None;
  }

  /** `extract_quiz_content`, with the processed quiz written to `disk`. */
  method ExtractQuizContent(disk: Disk, processedDir: string, response: Json,
                            sourceId: string, decode: Decoder, canOpen: bool)
    returns (r: Result<Json, PyError>)
    modifies disk
    ensures r == Extract(response, decode, canOpen).result
    ensures disk.files == match Extract(response, decode, canOpen).saved
      case None => old(disk.files)
      case Some(data) => old(disk.files)[QuizPath(processedDir, sourceId) := JsonFile(data)]
  {
    var block := LocateBlock(response);
    if block.Failure? {
      return Failure(QuizExtractionError(block.error));
    }
    var data := decode(block.value);
    if data.None? {
      return Failure(QuizExtractionError(ValueError(InvalidJsonMessage)));
    }
    var err := SaveParsedQuiz(disk, data.value, QuizPath(processedDir, sourceId), canOpen);
    if err.Some? {
      return Failure(QuizExtractionError(err.value));
    }
    if !HasLen(data.value) {
      // `len(data)` in the log line raises
      return Failure(QuizExtractionError(TypeError));
    }
    r := Success(data.value);
  }

  /** A message without "```json" fails with "JSON block not found" and saves nothing. */
  lemma NoFenceFails(response: Json, decode: Decoder, canOpen: bool, s: string)
    requires MessageContent(response) == Success(JString(s))
    requires !Contains(s, JsonFence)
    ensures Extract(response, decode, canOpen) ==
      Extraction(Failure(QuizExtractionError(ValueError(NoBlockMessage))), None)
    ensures CleanRawQuizData(response, decode) == Failure(ValueError(NoBlockMessage))
  {
  }

  /** A block that does not decode fails and saves nothing. */
  lemma InvalidJsonFails(response: Json, decode: Decoder, canOpen: bool)
    requires LocateBlock(response).Success? && decode(LocateBlock(response).value).None?
    ensures Extract(response, decode, canOpen) ==
      Extraction(Failure(QuizExtractionError(ValueError(InvalidJsonMessage))), None)
    ensures CleanRawQuizData(response, decode) == Failure(JsonDecodeError)
  {
  }

  /** Every failure of `extract_quiz_content` is the wrapping `ValueError`. */
  lemma FailuresAreWrapped(response: Json, decode: Decoder, canOpen: bool)
    ensures Extract(response, decode, canOpen).result.Failure? ==>
      Extract(response, decode, canOpen).result.error.QuizExtractionError?
  {
  }

  /**
    On success the value returned is the one decoded from the block and the
    one saved; nothing is saved on failure unless the value had no length.
   */
  lemma SavedIsReturned(response: Json, decode: Decoder, canOpen: bool)
    ensures var x := Extract(response, decode, canOpen);
      && (x.result.Success? ==>
            && x.saved == Some(x.result.value)
            && LocateBlock(response).Success?
            && decode(LocateBlock(response).value) == Some(x.result.value)
            && canOpen)
      && (x.result.Failure? && x.saved.Some? ==> !HasLen(x.saved.value))
  {
  }

  /**
    No shape is checked: any decoded string, list or object, even an empty
    list, is saved and returned as it is.
   */
  lemma AnyDecodedValueAccepted(response: Json, decode: Decoder, data: Json)
    requires LocateBlock(response).Success? && decode(LocateBlock(response).value) == Some(data)
    requires data.JString? || data.JArray? || data.JObject?
    ensures Extract(response, decode, true) == Extraction(Success(data), Some(data))
  {
  }

  /**
    When the file cannot be opened, a block that decoded still fails, with
    the wrapped `OSError`, and nothing is saved.
   */
  lemma OpenFailureSavesNothing(response: Json, decode: Decoder)
    requires LocateBlock(response).Success? && decode(LocateBlock(response).value).Some?
    ensures Extract(response, decode, false) == Extraction(Failure(QuizExtractionError(OsError)), None)
  {
  }

  /**
    The two copies agree: the newer one fails exactly where the older one
    fails, or where the older one returns a value without a length, and its
    failure wraps the older one's (with the decode error renamed).
   */
  lemma CleanAgreesWithExtract(response: Json, decode: Decoder, canOpen: bool)
    ensures var x := Extract(response, decode, canOpen).result;
      var c := CleanRawQuizData(response, decode);
      && (x.Success? <==> c.Success? && HasLen(c.value) && canOpen)
      && (x.Success? ==> x == c)
      && (c.Failure? ==> x == Failure(QuizExtractionError(
            if c.error == JsonDecodeError then ValueError(InvalidJsonMessage) else c.error)))
  {
  }
}
