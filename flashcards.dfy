/**
  Flashcard export to AnkiConnect (core/anki_generator.py): one `createDeck`
  request, then one `addNote` request per quiz item, in order.

  The HTTP endpoint is a request log: every request the code sends is
  appended to `AnkiConnect.sent`. A failed post is logged and swallowed by
  the source, so nothing that follows depends on its outcome.
 */
module Flashcards {
  import opened Wrappers
  import opened Errors
  import opened Json

  const ApiVersion: int := 6
  const NoteModel: string := "Basic"
  const ExplanationSeparator: string := " Explanation: "
  const DeckSeparator: string := "::"

  /** The AnkiConnect endpoint on localhost, as the log of requests posted to it. */
  class AnkiConnect {
    var sent: seq<Json>

    constructor ()
      ensures sent == []
    {
      sent := [];
    }

    /** `requests.post("http://localhost:8765", json=body)`. */
    method Post(body: Json)
      modifies this
      ensures sent == old(sent) + [body]
    {
      sent := sent + [body];
    }
  }

  /** `{"action": action, "version": 6, "params": params}`. */
  function Envelope(action: string, params: Json): Json {
    JObject(map["action" := JString(action), "version" := JNumber(ApiVersion), "params" := params])
  }

  /** Every request carries exactly an action, the API version 6 and its parameters. */
  lemma EnvelopeShape(action: string, params: Json)
    ensures var r := Envelope(action, params);
      && r.JObject? && r.fields.Keys == {"action", "version", "params"}
      && Subscript(r, "action") == Success(JString(action))
      && Subscript(r, "version") == Success(JNumber(6))
      && Subscript(r, "params") == Success(params)
  {
  }

  function CreateDeckRequest(deck: Json): Json {
    Envelope("createDeck", JObject(map["deck" := deck]))
  }

  /** The note `generate_anki_cards` builds. */
  function Note(deck: Json, question: string, answerExp: string, tags: seq<Json>): Json {
    JObject(map[
      "deckName" := deck,
      "modelName" := JString(NoteModel),
      "fields" := JObject(map["Front" := JString(question), "Back" := JString(answerExp)]),
      "options" := JObject(map["allowDuplicate" := JBool(false)]),
      "tags" := JArray(tags)])
  }

  function AddNoteRequest(deck: Json, question: string, answerExp: string, tags: seq<Json>): Json {
    Envelope("addNote", JObject(map["note" := Note(deck, question, answerExp, tags)]))
  }

  /** `create_anki_deck`: post the `createDeck` request. */
  method CreateAnkiDeck(conn: AnkiConnect, deck: Json)
    modifies conn
    ensures conn.sent == old(conn.sent) + [CreateDeckRequest(deck)]
  {
    conn.Post(CreateDeckRequest(deck));
  }

  /** `generate_anki_cards`: post one `addNote` request. */
  method GenerateAnkiCards(conn: AnkiConnect, deck: Json, question: string, answerExp: string,
                           tags: seq<Json>)
    modifies conn
    ensures conn.sent == old(conn.sent) + [AddNoteRequest(deck, question, answerExp, tags)]
  {
    conn.Post(AddNoteRequest(deck, question, answerExp, tags));
  }

  /** Python truthiness of an optional string. */
  predicate Truthy(s: Option<string>) {
    s.Some? && s.value != ""
  }

  /**
    The card of one quiz item: `f"{content['question']}"` and
    `content['answer'] + " Explanation: " + content['explanation']`. The
    concatenation raises `TypeError` unless both parts are strings, and the
    answer is checked before the explanation is read.
   */
  function CardOf(content: Json): (r: Result<(string, string), PyError>)
    ensures r.Success? <==>
      content.JObject? && "question" in content.fields
      && "answer" in content.fields && content.fields["answer"].JString?
      && "explanation" in content.fields && content.fields["explanation"].JString?
    ensures r.Success? ==> r.value == (Display(content.fields["question"]),
      content.fields["answer"].s + ExplanationSeparator + content.fields["explanation"].s)
  {
    match Subscript(content, "question")
    case Failure(e) => Failure(e)
    case Success(question) =>
      match Subscript(content, "answer")
      case Failure(e) => Failure(e)
      case Success(answer) =>
        if !answer.JString? then Failure(TypeError)
        else
          match Subscript(content, "explanation")
          case Failure(e) => Failure(e)
          case Success(explanation) =>
            if !explanation.JString? then Failure(TypeError)
            else Success((Display(question), answer.s + ExplanationSeparator + explanation.s))
  }

  /** The `addNote` requests of the item loop and the exception that ends it early, if any. */
  datatype Posted = Posted(requests: seq<Json>, error: Option<PyError>)

  /** The item loop over `quiz`, from the front, stopping at the first item without a card. */
  function NoteRequests(deck: Json, quiz: seq<Json>): Posted {
    if |quiz| == 0 then Posted([], None)
    else
      var prev := NoteRequests(deck, quiz[..|quiz| - 1]);
      if prev.error.Some? then prev
      else
        match CardOf(quiz[|quiz| - 1])
        case Failure(e) => Posted(prev.requests, Some(e))
        case Success(card) => Posted(prev.requests + [AddNoteRequest(deck, card.0, card.1, [])], None)
  }

  lemma {:induction false} NoteRequestsStick(deck: Json, quiz: seq<Json>, k: nat)
    requires k <= |quiz| && NoteRequests(deck, quiz[..k]).error.Some?
    ensures NoteRequests(deck, quiz) == NoteRequests(deck, quiz[..k])
    decreases |quiz|
  {
    if k < |quiz| {
      var front := quiz[..|quiz| - 1];
      assert front[..k] == quiz[..k];
      NoteRequestsStick(deck, front, k);
    } else {
      assert quiz[..k] == quiz;
    }
  }

  /** One more item with a card adds its `addNote` request. */
  lemma NoteStep(deck: Json, quiz: seq<Json>, i: nat)
    requires i < |quiz| && NoteRequests(deck, quiz[..i]).error.None? && CardOf(quiz[i]).Success?
    ensures NoteRequests(deck, quiz[..i + 1]) == Posted(NoteRequests(deck, quiz[..i]).requests
      + [AddNoteRequest(deck, CardOf(quiz[i]).value.0, CardOf(quiz[i]).value.1, [])], None)
  {
    assert quiz[..i + 1][..i] == quiz[..i];
  }

  /** An item without a card ends the loop with its error and the requests so far. */
  lemma NoteFails(deck: Json, quiz: seq<Json>, i: nat)
    requires i < |quiz| && NoteRequests(deck, quiz[..i]).error.None? && CardOf(quiz[i]).Failure?
    ensures NoteRequests(deck, quiz)
      == Posted(NoteRequests(deck, quiz[..i]).requests, Some(CardOf(quiz[i]).error))
  {
    assert quiz[..i + 1][..i] == quiz[..i];
    NoteRequestsStick(deck, quiz, i + 1);
  }

  /** The item loop of `create_flashcards_from_transcript`: one `addNote` per item, in order; a missing or mistyped field aborts the loop. */
  method AddAllCards(conn: AnkiConnect, deck: Json, quiz: seq<Json>) returns (err: Option<PyError>)
    modifies conn
    ensures conn.sent == old(conn.sent) + NoteRequests(deck, quiz).requests
    ensures err == NoteRequests(deck, quiz).error
  {
    var i := 0;
    while i < |quiz|
      invariant 0 <= i <= |quiz|
      invariant NoteRequests(deck, quiz[..i]).error.None?
      invariant conn.sent == old(conn.sent) + NoteRequests(deck, quiz[..i]).requests
    {
      var card := CardOf(quiz[i]);
      if card.Failure? {
        NoteFails(deck, quiz, i);
        return Some(card.error);
      }
      var question, answerExp := card.value.0, card.value.1;
      NoteStep(deck, quiz, i);
      GenerateAnkiCards(conn, deck, question, answerExp, []);
      i := i + 1;
    }
    assert quiz[..i] == quiz;
    err := None;
  }

  /** `f"{channel_name}::{video_title}"`, used when both are truthy. */
  function DeckName(videoTitle: string, channelName: string): string {
    channelName + DeckSeparator + videoTitle
  }

  /**
    Everything `create_flashcards_from_transcript` posts: the deck request
    and then the note requests, or nothing when the deck name cannot be
    chosen. `str` and `None` have no `copy` method, so the fallback branch
    raises `AttributeError` before anything is sent.
   */
  function FlashcardOutcome(quiz: seq<Json>, videoTitle: Option<string>, channelName: Option<string>)
    : (r: Posted)
  {
    if Truthy(videoTitle) && Truthy(channelName) then
      var deck := JString(DeckName(videoTitle.value, channelName.value));
      var notes := NoteRequests(deck, quiz);
      Posted([CreateDeckRequest(deck)] + notes.requests, notes.error)
    else Posted([], Some(AttributeError))
  }

  /** `create_flashcards_from_transcript`, as written. */
  method CreateFlashcardsFromTranscript(conn: AnkiConnect, cleanQuiz: seq<Json>,
                                        userDeckName: Option<string>,
                                        videoTitle: Option<string>, channelName: Option<string>)
    returns (r: Result<(), PyError>)
    modifies conn
    ensures conn.sent == old(conn.sent) + FlashcardOutcome(cleanQuiz, videoTitle, channelName).requests
    ensures r.Failure? <==> FlashcardOutcome(cleanQuiz, videoTitle, channelName).error.Some?
    ensures r.Failure? ==> r.error == FlashcardOutcome(cleanQuiz, videoTitle, channelName).error.value
  {
    var deck: Json;
    if Truthy(videoTitle) && Truthy(channelName) {
      deck := JString(DeckName(videoTitle.value, channelName.value));
      CreateAnkiDeck(conn, deck);
    } else {
      // `user_deck_name.copy()`: neither `str` nor `None` has `copy`
      return Failure(AttributeError);
    }
    var err := AddAllCards(conn, deck, cleanQuiz);
    if err.Some? {
      return Failure(err.value);
    }
    r := Success(());
  }

  /** The fallback deck of the intended behaviour: the user's deck name itself (None as null). */
  function UserDeck(userDeckName: Option<string>): Json {
    if userDeckName.Some? then JString(userDeckName.value) else JNull
  }

  /** What the function evidently means to post: the fallback uses `user_deck_name` as it is. */
  function IntendedOutcome(quiz: seq<Json>, userDeckName: Option<string>,
                           videoTitle: Option<string>, channelName: Option<string>): Posted
  {
    var deck := if Truthy(videoTitle) && Truthy(channelName)
      then JString(DeckName(videoTitle.value, channelName.value))
      else UserDeck(userDeckName);
    var notes := NoteRequests(deck, quiz);
    Posted([CreateDeckRequest(deck)] + notes.requests, notes.error)
  }

  /** `create_flashcards_from_transcript` with the fallback deck taken without `copy()`. */
  method CreateFlashcardsIntended(conn: AnkiConnect, cleanQuiz: seq<Json>,
                                  userDeckName: Option<string>,
                                  videoTitle: Option<string>, channelName: Option<string>)
    returns (r: Result<(), PyError>)
    modifies conn
    ensures conn.sent == old(conn.sent)
      + IntendedOutcome(cleanQuiz, userDeckName, videoTitle, channelName).requests
    ensures r.Failure? <==> IntendedOutcome(cleanQuiz, userDeckName, videoTitle, channelName).error.Some?
  {
    var deck: Json;
    if Truthy(videoTitle) && Truthy(channelName) {
      deck := JString(DeckName(videoTitle.value, channelName.value));
    } else {
      deck := UserDeck(userDeckName);
    }
    CreateAnkiDeck(conn, deck);
    var err := AddAllCards(conn, deck, cleanQuiz);
    if err.Some? {
      return Failure(err.value);
    }
    r := Success(());
  }

  /** When every item has a card, there is one `addNote` per item, in order. */
  lemma {:induction false} NotesPerItem(deck: Json, quiz: seq<Json>)
    requires forall i :: 0 <= i < |quiz| ==> CardOf(quiz[i]).Success?
    ensures NoteRequests(deck, quiz).error.None?
    ensures |NoteRequests(deck, quiz).requests| == |quiz|
    ensures forall i :: 0 <= i < |quiz| ==> (NoteRequests(deck, quiz).requests[i]
      == AddNoteRequest(deck, CardOf(quiz[i]).value.0, CardOf(quiz[i]).value.1, []))
    decreases |quiz|
  {
    if |quiz| > 0 {
      var n := |quiz| - 1;
      NotesPerItem(deck, quiz[..n]);
      var prev := NoteRequests(deck, quiz[..n]).requests;
      var card := CardOf(quiz[n]).value;
      assert NoteRequests(deck, quiz).requests == prev + [AddNoteRequest(deck, card.0, card.1, [])];
    }
  }

  /** When item `k` is the first without a card, the notes of the items before it were sent. */
  lemma NotesUpToFirstBad(deck: Json, quiz: seq<Json>, k: nat)
    requires k < |quiz| && CardOf(quiz[k]).Failure?
    requires forall i :: 0 <= i < k ==> CardOf(quiz[i]).Success?
    ensures NoteRequests(deck, quiz) == Posted(NoteRequests(deck, quiz[..k]).requests, Some(CardOf(quiz[k]).error))
    ensures |NoteRequests(deck, quiz).requests| == k
  {
    var front := quiz[..k];
    assert forall i :: 0 <= i < k ==> front[i] == quiz[i];
    NotesPerItem(deck, front);
    assert quiz[..k + 1][..k] == front;
    NoteRequestsStick(deck, quiz, k + 1);
  }

  /** The note requests are all `addNote` envelopes, so none of them creates a deck. */
  lemma {:induction false} NoteRequestsAreNotes(deck: Json, quiz: seq<Json>)
    ensures forall i :: 0 <= i < |NoteRequests(deck, quiz).requests| ==>
      Subscript(NoteRequests(deck, quiz).requests[i], "action") == Success(JString("addNote"))
    decreases |quiz|
  {
    if |quiz| > 0 {
      NoteRequestsAreNotes(deck, quiz[..|quiz| - 1]);
    }
  }

  /**
    With a title and a channel, exactly one `createDeck` is sent, first,
    named "{channel}::{title}"; every other request is an `addNote`.
   */
  lemma DeckFirst(quiz: seq<Json>, videoTitle: string, channelName: string)
    requires videoTitle != "" && channelName != ""
    ensures var sent := FlashcardOutcome(quiz, Some(videoTitle), Some(channelName)).requests;
      && |sent| >= 1
      && sent[0] == CreateDeckRequest(JString(channelName + "::" + videoTitle))
      && forall i :: 1 <= i < |sent| ==> Subscript(sent[i], "action") == Success(JString("addNote"))
  {
    var deck := JString(DeckName(videoTitle, channelName));
    NoteRequestsAreNotes(deck, quiz);
    var notes := NoteRequests(deck, quiz).requests;
    var sent := [CreateDeckRequest(deck)] + notes;
    assert forall i :: 1 <= i < |sent| ==> sent[i] == notes[i - 1];
  }

  /** Without a title or a channel the code fails before posting anything, whatever the user's deck. */
  lemma FallbackAlwaysFails(quiz: seq<Json>, videoTitle: Option<string>, channelName: Option<string>)
    requires !(Truthy(videoTitle) && Truthy(channelName))
    ensures FlashcardOutcome(quiz, videoTitle, channelName) == Posted([], Some(AttributeError))
  {
  }

  /**
    The counterexample: with a user deck named "Biology" and no title, the
    code sends nothing, while the intended behaviour creates the "Biology"
    deck.
   */
  lemma FallbackCounterexample()
    ensures FlashcardOutcome([], None, None).requests == []
    ensures IntendedOutcome([], Some("Biology"), None, None).requests
      == [CreateDeckRequest(JString("Biology"))]
  {
  }

  /**
    The intended behaviour always creates exactly one deck first, the same one
    the code creates when it has a title and a channel, and posts the same
    notes there.
   */
  lemma IntendedDeckFirst(quiz: seq<Json>, userDeckName: Option<string>,
                          videoTitle: Option<string>, channelName: Option<string>)
    ensures var sent := IntendedOutcome(quiz, userDeckName, videoTitle, channelName).requests;
      && |sent| >= 1 && Subscript(sent[0], "action") == Success(JString("createDeck"))
      && forall i :: 1 <= i < |sent| ==> Subscript(sent[i], "action") == Success(JString("addNote"))
    ensures Truthy(videoTitle) && Truthy(channelName) ==>
      (IntendedOutcome(quiz, userDeckName, videoTitle, channelName)
        == FlashcardOutcome(quiz, videoTitle, channelName))
  {
    var deck := if Truthy(videoTitle) && Truthy(channelName)
      then JString(DeckName(videoTitle.value, channelName.value))
      else UserDeck(userDeckName);
    NoteRequestsAreNotes(deck, quiz);
    var notes := NoteRequests(deck, quiz).requests;
    var sent := [CreateDeckRequest(deck)] + notes;
    assert forall i :: 1 <= i < |sent| ==> sent[i] == notes[i - 1];
  }

  /**
    Reading a note back gives what the card was built from: the question on
    the front, "answer Explanation: explanation" on the back, the deck, the
    "Basic" model, duplicates refused and no tags.
   */
  lemma NoteReadBack(deck: Json, question: string, answer: string, explanation: string)
    ensures var note := Note(deck, question, answer + ExplanationSeparator + explanation, []);
      && Subscript(note, "deckName") == Success(deck)
      && Subscript(note, "modelName") == Success(JString("Basic"))
      && Subscript(note, "fields").Success?
      && Subscript(Subscript(note, "fields").value, "Front") == Success(JString(question))
      && Subscript(Subscript(note, "fields").value, "Back")
        == Success(JString(answer + " Explanation: " + explanation))
      && Subscript(note, "options").Success?
      && Subscript(Subscript(note, "options").value, "allowDuplicate") == Success(JBool(false))
      && Subscript(note, "tags") == Success(JArray([]))
  {
  }
}
