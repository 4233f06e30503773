/**
  Transcript and metadata files: `save_transcript` (core/transcript_service.py
  and the two older copies in core/ and src/transcribe_yt_video.py) and
  `get_yt_video_title_author`.

  A transcript is written entry by entry to a file opened with mode "w": the
  file ends up holding each entry's `text` followed by a newline, in order,
  up to the first entry that has no string `text`.
 */
module Transcripts {
  import opened Wrappers
  import opened Strings
  import opened Errors
  import opened Json
  import opened Files

  const Newline: string := "\n"

  /** `TRANSCRIPTS_DIR / f"{video_id}.txt"`. */
  function TranscriptPath(transcriptsDir: string, videoId: string): string {
    PathJoin(transcriptsDir, videoId + ".txt")
  }

  /** `Path(__file__).parents[1] / f"transcripts/{video_id}.txt"` in the older copies. */
  function LegacyTranscriptPath(projectRoot: string, videoId: string): string {
    PathJoin(projectRoot, "transcripts/" + videoId + ".txt")
  }

  /**
    `entry['text']`, when `entry['text'] + "\n"` can be evaluated: a dict
    without the key raises `KeyError`, any other entry or a text that is not
    a string raises `TypeError`.
   */
  function EntryText(entry: Json): (r: Result<string, PyError>)
    ensures r.Success? <==>
      entry.JObject? && "text" in entry.fields && entry.fields["text"].JString?
    ensures r.Success? ==> r.value == entry.fields["text"].s
    ensures entry.JObject? && "text" !in entry.fields ==> r == Failure(KeyError("text"))
  {
    match Subscript(entry, "text")
    case Failure(e) => Failure(e)
    case Success(JString(s)) => Success(s)
    case Success(_) => Failure(TypeError)
  }

  /** Each text followed by a newline, in order: the intended file content. */
  function Flatten(texts: seq<string>): string {
    if |texts| == 0 then "" else texts[0] + Newline + Flatten(texts[1..])
  }

  /** What the write loop leaves in the file, and the exception that stopped it. */
  datatype Outcome = Outcome(written: string, error: Option<PyError>)

  /**
    The write loop over `raw`, entry by entry from the front: it stops at the
    first entry whose text cannot be written, keeping what was written before.
   */
  function Written(raw: seq<Json>): Outcome {
    if |raw| == 0 then Outcome("", None)
    else
      var prev := Written(raw[..|raw| - 1]);
      if prev.error.Some? then prev
      else
        match EntryText(raw[|raw| - 1])
        case Failure(e) => Outcome(prev.written, Some(e))
        case Success(text) => Outcome(prev.written + text + Newline, None)
  }

  /** Once an entry has failed, the entries after it change nothing. */
  lemma {:induction false} ErrorSticks(raw: seq<Json>, k: nat)
    requires k <= |raw| && Written(raw[..k]).error.Some?
    ensures Written(raw) == Written(raw[..k])
    decreases |raw|
  {
    if k < |raw| {
      var front := raw[..|raw| - 1];
      assert front[..k] == raw[..k];
      ErrorSticks(front, k);
    } else {
      assert raw[..k] == raw;
    }
  }

  lemma {:induction false} FlattenSnoc(texts: seq<string>, t: string)
    ensures Flatten(texts + [t]) == Flatten(texts) + t + Newline
    decreases |texts|
  {
    if |texts| > 0 {
      assert (texts + [t])[1..] == texts[1..] + [t];
      FlattenSnoc(texts[1..], t);
    }
  }

  /** When every entry has a string text, the file holds exactly `Flatten` of the texts. */
  lemma {:induction false} WrittenAllGood(raw: seq<Json>, texts: seq<string>)
    requires |texts| == |raw|
    requires forall i :: 0 <= i < |raw| ==> EntryText(raw[i]) == Success(texts[i])
    ensures Written(raw) == Outcome(Flatten(texts), None)
    decreases |raw|
  {
    if |raw| > 0 {
      var n := |raw| - 1;
      WrittenAllGood(raw[..n], texts[..n]);
      FlattenSnoc(texts[..n], texts[n]);
      assert texts[..n] + [texts[n]] == texts;
    }
  }

  /**
    When entry `k` is the first bad one, the file holds the texts of the
    entries before it and the loop raises that entry's error.
   */
  lemma WrittenFirstBad(raw: seq<Json>, texts: seq<string>, k: nat)
    requires k < |raw| && |texts| == k
    requires forall i :: 0 <= i < k ==> EntryText(raw[i]) == Success(texts[i])
    requires EntryText(raw[k]).Failure?
    ensures Written(raw) == Outcome(Flatten(texts), Some(EntryText(raw[k]).error))
  {
    var front := raw[..k + 1];
    assert front[..k] == raw[..k];
    WrittenAllGood(raw[..k], texts);
    ErrorSticks(raw, k + 1);
  }

  /**
    Reading the file back and splitting it on newlines gives the texts and a
    final empty piece, provided no text holds a newline itself.
   */
  lemma {:induction false} SplitFlatten(texts: seq<string>)
    requires forall i :: 0 <= i < |texts| ==> '\n' !in texts[i]
    ensures Split(Flatten(texts), Newline) == texts + [""]
    decreases |texts|
  {
    if |texts| > 0 {
      var rest := Flatten(texts[1..]);
      PartitionFirst(texts[0], '\n', rest);
      assert Flatten(texts) == texts[0] + ['\n'] + rest;
      SplitFlatten(texts[1..]);
      assert texts == [texts[0]] + texts[1..];
    }
  }

  /**
    The loop of `save_transcript`: open `path` for writing (truncating it),
    then write each entry's text and a newline. `canOpen` says whether `open`
    succeeded; when it fails the file system is untouched.
   */
  method WriteTranscript(disk: Disk, path: string, raw: seq<Json>, canOpen: bool)
    returns (err: Option<PyError>)
    modifies disk
    ensures !canOpen ==> err == Some(OsError) && disk.files == old(disk.files)
    ensures canOpen ==> (err == Written(raw).error
      && disk.files == old(disk.files)[path := TextFile(Written(raw).written)])
  {
    if !canOpen {
      return Some(OsError);
    }
    disk.Write(path, TextFile(""));
    var i := 0;
    while i < |raw|
      invariant 0 <= i <= |raw|
      invariant Written(raw[..i]).error.None?
      invariant disk.files == old(disk.files)[path := TextFile(Written(raw[..i]).written)]
    {
      var text := EntryText(raw[i]);
      assert raw[..i + 1][..i] == raw[..i];
      if text.Failure? {
        ErrorSticks(raw, i + 1);
        return Some(text.error);
      }
      var before := Written(raw[..i]).written;
      disk.Append(path, text.value + Newline);
      assert Written(raw[..i + 1]) == Outcome(before + text.value + Newline, None);
      assert before + (text.value + Newline) == before + text.value + Newline;
      i := i + 1;
    }
    assert raw[..i] == raw;
    err := None;
  }

  /** The exception the write raises, if any. */
  function SaveError(raw: seq<Json>, canOpen: bool): Option<PyError> {
    if canOpen then Written(raw).error else Some(OsError)
  }

  /**
    `save_transcript` in core/transcript_service.py: any exception is
    re-raised as `ValueError(str(e))`.
   */
  method SaveTranscript(disk: Disk, transcriptsDir: string, raw: seq<Json>, videoId: string,
                        canOpen: bool)
    returns (r: Result<(), PyError>)
    modifies disk
    ensures r.Failure? <==> SaveError(raw, canOpen).Some?
    ensures r.Failure? ==> r.error == RaisedAsValueError(SaveError(raw, canOpen).value)
    ensures disk.files == if canOpen
      then old(disk.files)[TranscriptPath(transcriptsDir, videoId) := TextFile(Written(raw).written)]
      else old(disk.files)
  {
    var err := WriteTranscript(disk, TranscriptPath(transcriptsDir, videoId), raw, canOpen);
    if err.Some? {
      return Failure(RaisedAsValueError(err.value));
    }
    r := Success(());
  }

  /** `save_transcript` in core/ and src/transcribe_yt_video.py: exceptions propagate as raised. */
  method SaveTranscriptLegacy(disk: Disk, projectRoot: string, raw: seq<Json>, videoId: string,
                              canOpen: bool)
    returns (r: Result<(), PyError>)
    modifies disk
    ensures r.Failure? <==> SaveError(raw, canOpen).Some?
    ensures r.Failure? ==> r.error == SaveError(raw, canOpen).value
    ensures disk.files == if canOpen
      then old(disk.files)[LegacyTranscriptPath(projectRoot, videoId) := TextFile(Written(raw).written)]
      else old(disk.files)
  {
    var err := WriteTranscript(disk, LegacyTranscriptPath(projectRoot, videoId), raw, canOpen);
    if err.Some? {
      return Failure(err.value);
    }
    r := Success(());
  }

  /** `METADATA_DIR / f"{video_id}.json"`. */
  function MetadataPath(metadataDir: string, videoId: string): string {
    PathJoin(metadataDir, videoId + ".json")
  }

  /**
    `json.load(open(path))`: a missing file raises `OSError`, text that does
    not decode raises `JSONDecodeError`.
   */
  function LoadJson(files: map<string, File>, path: string, decode: Decoder): (r: Result<Json, PyError>)
    ensures path !in files ==> r == Failure(OsError)
    ensures path in files && files[path].JsonFile? ==> r == Success(files[path].value)
  {
    if path !in files then Failure(OsError)
    else
      match files[path]
      case JsonFile(v) => Success(v)
      case TextFile(t) => if decode(t).Some? then Success(decode(t).value) else Failure(JsonDecodeError)
      case PdfFile(_) => Failure(JsonDecodeError)
  }

  /** `get_yt_video_title_author`: the pair (`title`, `channel`) of the metadata record. */
  function TitleAuthor(files: map<string, File>, metadataDir: string, videoId: string,
                       decode: Decoder): (r: Result<(Json, Json), PyError>)
    ensures var m := LoadJson(files, MetadataPath(metadataDir, videoId), decode);
      && (r.Success? <==>
            m.Success? && m.value.JObject? && "title" in m.value.fields && "channel" in m.value.fields)
      && (r.Success? ==> r.value == (m.value.fields["title"], m.value.fields["channel"]))
      && (m.Failure? ==> r == Failure(m.error))
  {
    match LoadJson(files, MetadataPath(metadataDir, videoId), decode)
    case Failure(e) => Failure(e)
    case Success(meta) =>
      match Subscript(meta, "title")
      case Failure(e) => Failure(e)
      case Success(title) =>
        match Subscript(meta, "channel")
        case Failure(e) => Failure(e)
        case Success(channel) => Success((title, channel))
  }

  /**
    A record without `title` fails on `title` first, and one with `title`
    but without `channel` fails on `channel`.
   */
  lemma TitleAuthorMissingKey(files: map<string, File>, metadataDir: string, videoId: string,
                              decode: Decoder, meta: map<string, Json>)
    requires LoadJson(files, MetadataPath(metadataDir, videoId), decode) == Success(JObject(meta))
    ensures "title" !in meta ==> TitleAuthor(files, metadataDir, videoId, decode) == Failure(KeyError("title"))
    ensures "title" in meta && "channel" !in meta ==>
      TitleAuthor(files, metadataDir, videoId, decode) == Failure(KeyError("channel"))
  {
  }
}
