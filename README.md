# Quiz pipeline core, modelled in Dafny

This project models the deterministic core of a pipeline that turns a YouTube
transcript into an open-ended quiz. The pipeline writes the quiz as a PDF and
posts it to Anki as flashcards. The modelled parts are:

- **Video ids** (`VideoUrl`, video_id.dfy). Taking the video id out of a YouTube
  URL: a short link, a `/watch?v=` link or an `/embed/` link. The model follows
  `urlparse`, the `hostname` property and `parse_qs` as CPython 3.12 implements them.
- **Transcripts** (`Transcripts`, transcripts.dfy). Writing a transcript file entry
  by entry (three copies of `save_transcript`), and reading a video's title and
  channel from its metadata file.
- **Prompt** (`PromptBuilder`, prompt.dfy). The quiz prompt built from the
  transcript and the question count.
- **Completion** (`Completion`, completion.dfy). The completion call's retry loop,
  and the file that stores the raw response with its metadata.
- **Quiz extraction** (`QuizParser`, parser.dfy). Cutting the ```` ```json ```` block
  out of the completion's message, decoding it and saving it.
- **PDF** (`PdfExport`, pdf.dfy). The two-section quiz document: a student version
  and a teacher version.
- **Flashcards** (`Flashcards`, flashcards.dfy). The AnkiConnect requests sent for
  a quiz.

Shared modules: `Wrappers` (Option, Result), `Errors` (the Python exceptions
involved), `Json` (decoded JSON values, subscripting, `str()`), `Document`
(the reportlab blocks), `Files` (a `Disk` class holding the written files)
and `Strings` (Python `str` operations: `find`, `split`, `strip`, `str(int)`).

Code that changes state keeps that form:
- `Disk` is a class whose methods update the file map.
- `AnkiConnect` is a class whose `sent` field logs every request posted.
- The `save_transcript` loop, the two `export_pdf` loops, the flashcard loop and
  the retry loop are `while` loops.

Each method is proved against a function of its inputs, and the lemmas state
what the source promises about that function.

External effects become parameters:
- `decode` is `json.loads`.
- `canOpen` says whether `open` succeeds.
- `built` says whether reportlab's `doc.build` succeeds.
- `outcome(k)` is the provider's answer to attempt `k`.
- `timestamp` is the formatted clock reading.
- `UrlLib` gathers the few `urllib.parse` steps that need Unicode tables or the
  `ipaddress` module.

Where the code differs from what its own docstrings or the design describe,
the model follows the code:
- `extract_video_id` is documented to return an id or None. It raises
  `ValueError` when `urlparse` rejects a netloc, for example an unbalanced
  `[`. `VideoUrl.ExtractFailsOnlyOnBracketsOrNonAscii` bounds when that happens.
- The design describes exponential back-off and a failure once all attempts
  are used up. The code sleeps `2 * attempt` seconds, which is linear, also
  sleeps after the last attempt, and returns `None`.
- `extract_quiz_content` saves the decoded value before logging `len(data)`. A
  block that decodes to a number, a boolean or null is therefore saved, and the
  call then fails with `TypeError`, wrapped.
- In `export_pdf` (both copies), an error raised before `file_path` is bound
  makes the handler's own reference to `file_path` raise `UnboundLocalError`.
  Examples are a string with no `[...]` span, a value that is not a list, or an
  empty list. Once `file_path` is bound, an error is logged and the path is
  still returned.
- `create_flashcards_from_transcript` fails whenever it lacks a title or a
  channel. See Findings.

## Model

| member | source | states |
|---|---|---|
| Json.Subscript | core/parser.py:11 | `j[key]` gives the value held under `key` exactly when `j` is a dict holding `key`, and fails otherwise |
| Json.First | core/parser.py:11 | `j[0]` succeeds exactly on a non-empty list or string |
| QuizParser.RawBlockParts | core/parser.py:15 | the split-based cut is the text after the first "```json", then before the first "```json" of that text, then before its first "```" |
| QuizParser.RawBlockRule | core/parser.py:15 | the block is the text after the first "```json", up to the next "```" or to the end when there is none, unless a second "```json" starts inside that "```" |
| QuizParser.FencedBlockStraddle | core/parser.py:15 | the exception to the rule happens: a four-backtick run before a second "```json" leaves "[1]`" as the block |
| QuizParser.LocateBlock | core/parser.py:11-18 | for a string message: the stripped block when it contains "```json", else `ValueError("JSON block not found")` |
| QuizParser.SaveParsedQuiz | core/parser.py:40-47 | when `open` succeeds the data is written as JSON at the given path and no other file changes; when it fails, `OSError` is raised and nothing is written |
| QuizParser.ExtractQuizContent | core/parser.py:8-38 | the result is the extraction outcome; the disk changes only at `<processed>/<source_id>.json`, and only once the block decoded and the file opened, holding the decoded value |
| QuizParser.NoFenceFails | core/parser.py:14-18 | a message without "```json" fails with the wrapped "JSON block not found" and saves nothing |
| QuizParser.InvalidJsonFails | core/parser.py:20-26 | a block that does not decode fails with the wrapped "did not contain valid JSON" and saves nothing |
| QuizParser.FailuresAreWrapped | core/parser.py:36-38 | every failure is re-raised as the wrapping `ValueError` |
| QuizParser.SavedIsReturned | core/parser.py:28-34 | on success the file opened, and the value returned is the decoded block and is the value saved; a failure that saved something saved a value with no `len` |
| QuizParser.OpenFailureSavesNothing | core/parser.py:28-31 | a block that decoded still fails, with the wrapped `OSError`, when the file cannot be opened, and nothing is saved |
| QuizParser.AnyDecodedValueAccepted | core/parser.py:20-34 | no shape check: any decoded string, list or dict (an empty list included) is saved and returned unchanged |
| QuizParser.CleanAgreesWithExtract | src/generate_outputs.py:11-22 | the new copy succeeds exactly where the old one does, on a value with `len`, with the file opened, with the same value; a failure of the old copy is the new copy's failure unwrapped |
| VideoUrl.ExtractVideoId | core/transcript_service.py:18-53 | raises exactly when `urlsplit` raises; otherwise gives the id chosen from the parsed host, path and query; the copies at core/transcribe_yt_video.py:10-39 and src/transcribe_yt_video.py:16-45 are the same function |
| VideoUrl.ShortLinkId | core/transcript_service.py:38-40 | `scheme://youtu.be/<id>` (host in any case, any query) gives `<id>`; this case is tried first |
| VideoUrl.WatchLinkId | core/transcript_service.py:43-45 | on any other host, `scheme://host/watch?v=<id>` gives `<id>` |
| VideoUrl.WatchLinkEmptyValue | core/transcript_service.py:43-45 | `.../watch?v=` with an empty value gives None, because `parse_qs` drops blank values |
| VideoUrl.EmbedLinkId | core/transcript_service.py:48-50 | on any other host, `scheme://host/embed/<id>` gives `<id>` |
| VideoUrl.EmbedSplit | core/transcript_service.py:50 | `path.split("/")[2]` of an "/embed/" path is the text after "/embed/" up to the next '/' |
| VideoUrl.ExtractFailsOnlyOnBracketsOrNonAscii | core/transcript_service.py:35 | `urlparse` raises only on a URL that holds '[' or ']' or a character outside ASCII |
| VideoUrl.UrlSplitFailsOnNetloc | core/transcript_service.py:35 | a failure of `urlsplit` comes from a netloc with a bracket or a non-ASCII character |
| VideoUrl.NetlocFromUrl | core/transcript_service.py:35 | every character of the parsed netloc is a character of the URL |
| VideoUrl.UrlParse | core/transcript_service.py:35 | `urlparse` fails exactly when `urlsplit` does and keeps its scheme, netloc and query |
| VideoUrl.QueryValueIsFirst | core/transcript_service.py:45 | `parse_qs(q).get("v", [None])[0]` is the value of the first `v` pair, or None when there is none |
| VideoUrl.GroupValuesFirst | core/transcript_service.py:45 | a name is a key of `parse_qs`'s result exactly when some pair has that name, and its first value is the first pair's |
| VideoUrl.ParseQslSingle | core/transcript_service.py:45 | a plain `name=value` query is exactly that one pair |
| Transcripts.EntryText | core/transcript_service.py:104 | `entry['text'] + "\n"` can be computed exactly when the entry is a dict with a string `text`; a dict without it raises `KeyError('text')` |
| Transcripts.WriteTranscript | core/transcript_service.py:101-104 | open failure: `OSError` and no file changes; otherwise the file holds what the loop wrote, the loop's error is returned, and no other file changes |
| Transcripts.ErrorSticks | core/transcript_service.py:103-104 | after a failing entry, later entries change neither the file nor the error |
| Transcripts.WrittenAllGood | core/transcript_service.py:102-104 | when every entry has a string text, the file is each text followed by a newline, in order, and nothing is raised |
| Transcripts.WrittenFirstBad | core/transcript_service.py:102-109 | when entry k is the first bad one, the file holds the texts before it and the loop raises that entry's error |
| Transcripts.SplitFlatten | core/transcript_service.py:104 | reading the file back and splitting on newlines gives the texts plus a final empty piece, when no text contains a newline |
| Transcripts.SaveTranscript | core/transcript_service.py:77-109 | writes `<transcripts>/<id>.txt` as above; any error is re-raised as `ValueError(str(e))` |
| Transcripts.SaveTranscriptLegacy | core/transcribe_yt_video.py:63-86 | writes `<root>/transcripts/<id>.txt` as above; errors propagate unwrapped; the copy at src/transcribe_yt_video.py:69-78 is the same method |
| Transcripts.LoadJson | core/transcript_service.py:143-144 | a missing file raises `OSError`; a JSON file gives its value |
| Transcripts.TitleAuthor | core/transcript_service.py:140-149 | succeeds exactly when the metadata loads as a dict with `title` and `channel`, giving that pair; a load failure propagates |
| Transcripts.TitleAuthorMissingKey | core/transcript_service.py:146-147 | a missing `title` raises `KeyError('title')` before `channel` is looked at; then a missing `channel` raises `KeyError('channel')` |
| PromptBuilder.BuildQuizPrompt | core/prompt_manager.py:5-32 | the prompt neither starts nor ends with whitespace |
| PromptBuilder.PromptShape | core/prompt_manager.py:8-32 | the prompt is the fixed body (role, instructions, count, schema, "---") followed by the indented transcript with its trailing whitespace removed |
| PromptBuilder.TranscriptAtEnd | core/prompt_manager.py:27-32 | a non-blank transcript ends the prompt, verbatim up to its trailing whitespace, after "---" and a four-space-indented line |
| PromptBuilder.BlankTranscript | core/prompt_manager.py:27-32 | a blank transcript leaves the prompt ending at "---" |
| PromptBuilder.StartsWithOpening | core/prompt_manager.py:8-9 | the prompt opens with "You are an expert quiz generator." |
| PromptBuilder.AsksForCount | core/prompt_manager.py:13 | the prompt asks to "Generate `str(n)` well-written" questions, for any integer n (no bound is checked) |
| PromptBuilder.DefaultAsksForTwenty | core/prompt_manager.py:5-13 | without a count the prompt asks for 20 questions |
| PromptBuilder.AsksForSchema | core/prompt_manager.py:17-25 | the JSON schema appears in the prompt unchanged |
| PromptBuilder.SchemaFieldOrder | core/prompt_manager.py:18-25 | the schema names "question", "answer" and "explanation", in that order |
| PromptBuilder.PromptStripIdempotent | core/prompt_manager.py:32 | stripping the prompt again changes nothing |
| PdfExport.BracketSpan | refactor_core/pdf_generator.py:30 | a match starts with '[' and ends with ']' |
| PdfExport.BracketSpanSpec | refactor_core/pdf_generator.py:30-32 | there is no match exactly when no '[' comes before a ']'; a match runs from the first '[' to the last ']' |
| PdfExport.Coerce | refactor_core/pdf_generator.py:29-37 | a non-string passes exactly when it is a non-empty list whose first item is a dict, and then unchanged; a string without a `[...]` span gives `ValueError`, a span that does not decode gives the decode error, and a decoded span is checked the same way |
| PdfExport.Field | refactor_core/pdf_generator.py:56 | `d[key]` can be interpolated exactly when `d` is a dict holding `key` |
| PdfExport.Questions | refactor_core/pdf_generator.py:55-57 | when the first loop completes there is one question per record |
| PdfExport.QuestionsAt | refactor_core/pdf_generator.py:55-57 | the first loop completes exactly when every record has a question, and question k is record k's `question` |
| PdfExport.ItemOf | refactor_core/pdf_generator.py:68-70 | a record gives an item exactly when it is a dict with `question`, `answer` and `explanation`, and the item holds their `str()` |
| PdfExport.Items | refactor_core/pdf_generator.py:67-71 | when the second loop completes there is one item per record |
| PdfExport.ItemsAt | refactor_core/pdf_generator.py:67-71 | the second loop completes exactly when every record has all three fields, and item k is built from record k |
| PdfExport.QuestionsStick | refactor_core/pdf_generator.py:55-57 | a record without a question makes the whole first loop fail |
| PdfExport.ItemsStick | refactor_core/pdf_generator.py:67-71 | a record lacking a field makes the whole second loop fail |
| PdfExport.ItemsHaveQuestions | refactor_core/pdf_generator.py:55-71 | when the second loop succeeds, the first read the same questions |
| PdfExport.StudentRows | refactor_core/pdf_generator.py:55-57 | two rows per question |
| PdfExport.TeacherRows | refactor_core/pdf_generator.py:67-71 | four rows per item |
| PdfExport.AppendStudentRows | refactor_core/pdf_generator.py:55-57 | the loop appends exactly the student rows of the questions, or fails where a record has no question |
| PdfExport.AppendTeacherRows | refactor_core/pdf_generator.py:67-71 | the loop appends exactly the teacher rows of the items, or fails where a record lacks a field |
| PdfExport.BuildFlowables | refactor_core/pdf_generator.py:47-71 | the blocks are the document layout of the items exactly when every record is complete |
| PdfExport.ExportPdf | refactor_core/pdf_generator.py:15-79 | rejected data: `UnboundLocalError` and no file; otherwise `<output_dir>/<source_id>.pdf` is returned; that file is written with the layout only when every record is complete and the build succeeds; the older copy at src/generate_outputs.py:24-89 is the same method |
| PdfExport.StudentRowsAt | refactor_core/pdf_generator.py:55-57 | student rows 2k and 2k+1 are "k+1. question" (Normal) and a 1×84 spacer |
| PdfExport.TeacherRowsAt | refactor_core/pdf_generator.py:67-71 | teacher rows 4k to 4k+3 are the numbered question, "Answer: …" (Italic), "Explanation: …" (Normal) and a 1×12 spacer |
| PdfExport.LayoutShape | refactor_core/pdf_generator.py:52-71 | N items give 6N+5 blocks: the titles with their 1×20 spacers at 0–1 and 2N+3–2N+4, and the page break at 2N+2 |
| PdfExport.StudentNumbering | refactor_core/pdf_generator.py:55-57 | the student section numbers the questions 1..N in input order, each followed by writing space |
| PdfExport.TeacherNumbering | refactor_core/pdf_generator.py:67-71 | the teacher section numbers the items 1..N in the same order with answer, explanation and space |
| PdfExport.RecordNumbering | refactor_core/pdf_generator.py:55-71 | for complete records, record k is printed as question k+1 in the student section and again, with its answer and explanation, in the teacher section |
| PdfExport.SinglePageBreak | refactor_core/pdf_generator.py:59 | block i is a page break exactly when i = 2N+2: the single break separates the sections |
| Flashcards.AnkiConnect.Post | core/anki_generator.py:13-17 | each post appends its body to the request log |
| Flashcards.EnvelopeShape | core/anki_generator.py:13-17 | every request has exactly the keys action, version (6) and params, holding the action and parameters given |
| Flashcards.CreateAnkiDeck | core/anki_generator.py:9-22 | one `createDeck` request for the deck is logged; a failed post changes nothing else |
| Flashcards.GenerateAnkiCards | core/anki_generator.py:24-52 | one `addNote` request with the note is logged; a failed post changes nothing else |
| Flashcards.CardOf | core/anki_generator.py:73-74 | a card exists exactly when the item is a dict with a question, a string answer and a string explanation; its back is answer + " Explanation: " + explanation |
| Flashcards.AddAllCards | core/anki_generator.py:72-82 | the loop logs exactly the note requests of the items, up to the first item without a card, and returns that item's error |
| Flashcards.CreateFlashcardsFromTranscript | core/anki_generator.py:54-83 | the log grows by the deck request followed by the note requests, or by nothing when there is no title or channel; it fails exactly when the outcome has an error |
| Flashcards.NotesPerItem | core/anki_generator.py:72-82 | when every item has a card there is one `addNote` per item, in order, carrying that item's card |
| Flashcards.NotesUpToFirstBad | core/anki_generator.py:72-82 | when item k is the first without a card, k notes are sent and its error is raised |
| Flashcards.NoteRequestsAreNotes | core/anki_generator.py:43-48 | every request of the item loop is an `addNote` |
| Flashcards.DeckFirst | core/anki_generator.py:62-65 | with a title and a channel, exactly one `createDeck`, named "channel::title", is sent, and it is sent first |
| Flashcards.FallbackAlwaysFails | core/anki_generator.py:66-68 | without a title or a channel the call raises `AttributeError` and sends nothing, whatever the user's deck name |
| Flashcards.FallbackCounterexample | core/anki_generator.py:67 | for the user deck "Biology" the code sends nothing where one `createDeck` for "Biology" is meant |
| Flashcards.CreateFlashcardsIntended | core/anki_generator.py:62-68 | with the fallback deck taken as given, the log grows by the intended requests |
| Flashcards.IntendedDeckFirst | core/anki_generator.py:62-68 | the intended behaviour always sends one `createDeck` first and then only `addNote`s, and matches the code whenever a title and a channel are given |
| Flashcards.NoteReadBack | core/anki_generator.py:30-41 | the note reads back as deck, model "Basic", Front = question, Back = answer + " Explanation: " + explanation, duplicates refused, no tags |
| Completion.CallOpenAiApi | refactor_core/openai_client.py:16-44 | the response, the attempts made and the sleeps taken are those of the retry specification |
| Completion.RetryFromSpec | refactor_core/openai_client.py:28-44 | from any attempt: consecutive calls up to the first success, whose response is returned, sleeping 2k after each failed attempt k; with no success, every attempt is made, the loop sleeps after the last one too, and the result is None |
| Completion.CallSpec | refactor_core/openai_client.py:28-44 | at most `max_retries` calls, numbered 1, 2, …; the first success is returned and nothing is called after it; None exactly when no attempt in 1..`max_retries` succeeds (always when `max_retries` ≤ 0) |
| Completion.TotalBackoff | refactor_core/openai_client.py:44 | the pauses 2, 4, …, 2n add up to n(n+1) seconds |
| Completion.TotalSleep | refactor_core/openai_client.py:42-44 | one pause per failed attempt, 2k after attempt k, f(f+1) seconds in all for f failures: linear, not exponential |
| Completion.SaveRawOpenAiResponse | refactor_core/openai_client.py:48-93 | a non-dict response: None and no file; a plain dict is stamped in place, even when `open` then fails; on success the stamped dict is written at the path returned |
| Completion.StampedReadBack | refactor_core/openai_client.py:79-84 | the saved object keeps every other key unchanged and gains `metadata` holding source id (or null), input type and timestamp |
| Completion.RawResponseName | refactor_core/openai_client.py:73-75 | the file is `<output_dir>/<base>.json` with a non-empty base: the source id when it is non-empty, else "input_type_timestamp" |
| Completion.DistinctSourcesDistinctFiles | refactor_core/openai_client.py:74-75 | different non-empty source ids without '/' (video ids, `text_<stem>`) give different files in the same directory |

## Left out

- I/O is not modelled:
  - The network: YouTube, yt-dlp, OpenAI and AnkiConnect. Provider answers are the `outcome` oracle, and AnkiConnect is a request log.
  - Streamlit spinners and messages, and logging.
  - Directory creation, which always succeeds here.
  - A write that fails after `open` succeeded.
- `Files.PathJoin`: `Path(dir) / name` is modelled as `dir + "/" + name`. pathlib's collapsing of "." segments and repeated slashes, and an absolute name replacing the directory, are not modelled. `Completion.DistinctSourcesDistinctFiles` is stated only for source ids without '/' for that reason.
- JSON:
  - `json.loads` is the `decode` parameter, and `json.dump` formatting (indentation, key order) is not modelled.
  - JSON numbers are integers only. Floats are not modelled.
  - Objects are maps, so key order and duplicate keys are lost.
- `Json.Display`: `str()` of a list or dict is shown as `[...]` or `{...}` rather than Python's full representation. It is exact for strings, integers, booleans and None.
- reportlab's `doc.build` is the `built` parameter. Page layout, fonts and Paragraph markup parsing are not modelled.
- The `re.search(r"\[.*\]", data, re.DOTALL)` match is modelled as a first-'[' to last-']' span. It is the same span for any string.
- `urllib.parse` is followed as written in CPython 3.12, with four exceptions kept abstract in `UrlLib`:
  - percent-decoding;
  - `ipaddress` validation of bracketed hosts;
  - the NFKC check of non-ASCII netlocs;
  - `str.lower` of non-ASCII text.
- `Completion.CallOpenAiApi`:
  - `model`, `temperature` and the two chat messages are handed to the provider unchanged, so they are folded into the `outcome` oracle;
  - the client construction from `api_key` is not modelled;
  - sleeping is recorded as durations, not waited.
- `Completion.SaveRawOpenAiResponse`: the timestamp is a parameter. The clock and `strftime` are not modelled.
- `Flashcards.CreateFlashcardsFromTranscript`: the optional arguments are modelled as optional strings, as declared. A caller passing another object with a `copy` method is not modelled.
- `Transcripts.WriteTranscript`: `raw` is a list as declared. Iterating over other objects is not modelled.
- Orchestration is not modelled: the pipeline scripts, the Streamlit app, email sending, `transcribe_youtube_video` and `save_metadata`. These are I/O glue around the modelled functions.
- The pipeline's call with an unexpected `deck_name=` keyword (refactor_core/pipeline.py) is outside the modelled core.

## Findings

| source | as written | input that shows it | evidently intended | confidence | as-written member | corrected member |
|---|---|---|---|---|---|---|
| core/anki_generator.py:66-68 | without a title and a channel, the deck name is taken by calling `.copy()` on `user_deck_name`; neither `str` nor `None` has that method, so the call always raises `AttributeError` before any request | `user_deck_name="Biology"`, no title or channel | use the user's deck name as it is: create that deck, then add the notes to it | high; not executed | Flashcards.FallbackCounterexample | Flashcards.IntendedDeckFirst |
