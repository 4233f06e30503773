/**
  The quiz prompt of core/prompt_manager.py: one f-string template with the
  question count and the transcript substituted, stripped at both ends.

  The template is written below as the concatenation of its fixed pieces;
  every line inside it is indented by four spaces, as in the source's
  triple-quoted string, and three of the instruction lines end in two spaces.
 */
module PromptBuilder {
  import opened Strings

  /** A line break followed by the template's four-space indentation. */
  const Lead: string := "\n    "

  const Opening: string := "You are an expert quiz generator."

  const Instructions: string :=
    "\n\n    I will give you a transcript. Based ONLY on that transcript:\n\n    1. "

  const GenerateWord: string := "Generate "

  const WellWritten: string := " well-written"

  const Guidance: string :=
    " **open-ended questions**.  \n"
    + "    - Each question should test reasoning, application, or connections across ideas, not just recall.  \n"
    + "    - Provide a strong sample answer with a short explanation of why it is correct.  \n"
    + "\n"
    + "    2. Return your output in **JSON** with the following structure:\n    "

  const QuestionKey: string := "\"question\""
  const AnswerKey: string := "\"answer\""
  const ExplanationKey: string := "\"explanation\""
  const StringValue: string := ": \"string\""

  /** The JSON shape the model is asked for (the f-string's `{{` and `}}` are single braces). */
  const Schema: string :=
    "[\n    {\n        " + QuestionKey + StringValue + ",\n        " + AnswerKey + StringValue
    + ",\n        " + ExplanationKey + StringValue + "\n    },\n    ...\n    ]"

  const TranscriptHeader: string := "\n\n    Transcript:\n    ---"

  /** The default of `num_questions`. */
  const DefaultQuestions: int := 20

  /** The instruction that carries the question count, `Generate {n} well-written`. */
  function CountLine(numQuestions: int): string {
    GenerateWord + IntToString(numQuestions) + WellWritten
  }

  /** The template from its first to its last non-blank character, before the transcript. */
  function Body(numQuestions: int): string {
    Opening + (Instructions + (CountLine(numQuestions) + (Guidance + (Schema + TranscriptHeader))))
  }

  /** The f-string before `.strip()`. */
  function Template(transcriptText: string, numQuestions: int): string {
    Lead + Body(numQuestions) + Lead + transcriptText + Lead
  }

  /** `build_quiz_prompt(transcript_text, num_questions=20)`. */
  function BuildQuizPrompt(transcriptText: string, numQuestions: int := DefaultQuestions): (r: string)
    ensures IsStripped(r)
  {
    StripSlice(Template(transcriptText, numQuestions));
    Strip(Template(transcriptText, numQuestions))
  }

  lemma LeadIsSpace()
    ensures forall i :: 0 <= i < |Lead| ==> IsSpace(Lead[i])
  {
  }

  lemma BodyEnds(numQuestions: int)
    ensures Body(numQuestions) != [] && !IsSpace(Body(numQuestions)[0])
    ensures !IsSpace(Body(numQuestions)[|Body(numQuestions)| - 1])
  {
    var front := Instructions + (CountLine(numQuestions) + (Guidance + Schema));
    FirstLast(Opening, front, TranscriptHeader);
    assert Opening[0] == 'Y';
    assert TranscriptHeader[|TranscriptHeader| - 1] == '-';
  }

  /** The first and last characters of a three-part text. */
  lemma FirstLast(a: string, b: string, c: string)
    requires a != [] && c != []
    ensures var s := a + (b + c) ; |s| > 0 && s[0] == a[0] && s[|s| - 1] == c[|c| - 1]
  {
  }

  /**
    Stripping a body that starts and ends with non-space characters, framed
    by whitespace and followed by `t`, keeps the body and `t` without its
    trailing whitespace.
   */
  lemma StripFramed(lead: string, body: string, t: string)
    requires forall i :: 0 <= i < |lead| ==> IsSpace(lead[i])
    requires body != [] && !IsSpace(body[0]) && !IsSpace(body[|body| - 1])
    ensures Strip(lead + body + lead + t + lead) == body + TrimEnd(lead + t)
  {
    var tail := body + lead + t + lead;
    FramedStart(lead, body, t);
    assert TrimStart(lead + body + lead + t + lead) == tail;
    FramedEnd(lead, body, t);
  }

  lemma FramedStart(lead: string, body: string, t: string)
    requires forall i :: 0 <= i < |lead| ==> IsSpace(lead[i])
    requires body != [] && !IsSpace(body[0])
    ensures TrimStart(lead + body + lead + t + lead) == body + lead + t + lead
  {
    var tail := body + lead + t + lead;
    assert tail[0] == body[0];
    assert lead + body + lead + t + lead == lead + tail;
    TrimStartSpaces(lead, tail);
  }

  lemma FramedEnd(lead: string, body: string, t: string)
    requires forall i :: 0 <= i < |lead| ==> IsSpace(lead[i])
    requires body != [] && !IsSpace(body[|body| - 1])
    ensures TrimEnd(body + lead + t + lead) == body + TrimEnd(lead + t)
  {
    assert body + lead + t + lead == (body + (lead + t)) + lead;
    TrimEndSpaces(body + (lead + t), lead);
    TrimEndAppend(body, lead + t);
  }

  /**
    The prompt is the fixed body followed by the indented transcript, with
    the transcript's trailing whitespace removed (and the indentation with
    it when the transcript is blank).
   */
  lemma PromptShape(transcriptText: string, numQuestions: int)
    ensures BuildQuizPrompt(transcriptText, numQuestions)
      == Body(numQuestions) + TrimEnd(Lead + transcriptText)
  {
    LeadIsSpace();
    BodyEnds(numQuestions);
    StripFramed(Lead, Body(numQuestions), transcriptText);
  }

  /** A transcript with some text appears at the very end, verbatim up to its trailing whitespace. */
  lemma TranscriptAtEnd(transcriptText: string, numQuestions: int)
    requires TrimEnd(transcriptText) != []
    ensures BuildQuizPrompt(transcriptText, numQuestions)
      == Body(numQuestions) + Lead + TrimEnd(transcriptText)
  {
    PromptShape(transcriptText, numQuestions);
    TrimEndAppend(Lead, transcriptText);
    Assoc(Body(numQuestions), Lead, TrimEnd(transcriptText));
  }

  lemma Assoc(a: string, b: string, c: string)
    ensures a + (b + c) == a + b + c
  {
  }

  /** A blank transcript leaves the prompt ending at the "---" separator. */
  lemma BlankTranscript(transcriptText: string, numQuestions: int)
    requires forall i :: 0 <= i < |transcriptText| ==> IsSpace(transcriptText[i])
    ensures BuildQuizPrompt(transcriptText, numQuestions) == Body(numQuestions)
  {
    PromptShape(transcriptText, numQuestions);
    LeadIsSpace();
    BlankTail(Body(numQuestions), Lead, transcriptText);
  }

  lemma BlankTail(body: string, lead: string, t: string)
    requires forall i :: 0 <= i < |lead| ==> IsSpace(lead[i])
    requires forall i :: 0 <= i < |t| ==> IsSpace(t[i])
    ensures body + TrimEnd(lead + t) == body
  {
    TrimEndSpaces(lead, t);
    TrimEndEmpty(lead);
    assert body + [] == body;
  }

  /** The prompt opens with the role sentence. */
  lemma StartsWithOpening(transcriptText: string, numQuestions: int)
    ensures StartsWith(BuildQuizPrompt(transcriptText, numQuestions), Opening)
  {
    PromptShape(transcriptText, numQuestions);
    PrefixOf(Opening, Instructions + (CountLine(numQuestions) + (Guidance + (Schema + TranscriptHeader))),
      TrimEnd(Lead + transcriptText));
  }

  lemma PrefixOf(a: string, b: string, x: string)
    ensures StartsWith((a + b) + x, a)
  {
    assert ((a + b) + x)[..|a|] == a;
  }

  /** The pieces of a body nested the way `Body` nests them all occur in it. */
  lemma NestedContains(o: string, i: string, c: string, g: string, sc: string, h: string, x: string)
    requires c != [] && sc != []
    ensures Contains((o + (i + (c + (g + (sc + h))))) + x, c)
    ensures Contains((o + (i + (c + (g + (sc + h))))) + x, sc)
  {
    var s := (o + (i + (c + (g + (sc + h))))) + x;
    assert s == (o + i) + c + (g + sc + h + x);
    ContainsMiddle(o + i, c, g + sc + h + x);
    assert s == (o + i + c + g) + sc + (h + x);
    ContainsMiddle(o + i + c + g, sc, h + x);
  }

  /** The prompt asks for `str(num_questions)` questions, whatever the integer (no bound is checked). */
  lemma AsksForCount(transcriptText: string, numQuestions: int)
    ensures Contains(BuildQuizPrompt(transcriptText, numQuestions), CountLine(numQuestions))
  {
    PromptShape(transcriptText, numQuestions);
    NestedContains(Opening, Instructions, CountLine(numQuestions), Guidance, Schema, TranscriptHeader,
      TrimEnd(Lead + transcriptText));
  }

  /** Called without a count, the prompt asks for 20 questions. */
  lemma DefaultAsksForTwenty(transcriptText: string)
    ensures Contains(BuildQuizPrompt(transcriptText), "Generate 20 well-written")
  {
    assert CountLine(DefaultQuestions) == "Generate 20 well-written" by {
      assert IntToString(20) == "20";
    }
    AsksForCount(transcriptText, DefaultQuestions);
  }

  /** The prompt carries the JSON schema, unchanged. */
  lemma AsksForSchema(transcriptText: string, numQuestions: int)
    ensures Contains(BuildQuizPrompt(transcriptText, numQuestions), Schema)
  {
    PromptShape(transcriptText, numQuestions);
    NestedContains(Opening, Instructions, CountLine(numQuestions), Guidance, Schema, TranscriptHeader,
      TrimEnd(Lead + transcriptText));
  }

  /** The schema names "question", "answer" and "explanation", in that order. */
  lemma SchemaFieldOrder()
    ensures exists i: nat, j: nat, k: nat ::
      (i < j < k && OccursAt(Schema, QuestionKey, i) && OccursAt(Schema, AnswerKey, j)
       && OccursAt(Schema, ExplanationKey, k))
  {
    var a := "[\n    {\n        ";
    var b := StringValue + ",\n        ";
    var d := StringValue + "\n    },\n    ...\n    ]";
    InOrder(a, QuestionKey, b, AnswerKey, b, ExplanationKey, d);
    assert Schema == a + QuestionKey + b + AnswerKey + b + ExplanationKey + d;
  }

  lemma InOrder(a: string, p: string, b: string, q: string, c: string, r: string, d: string)
    requires p != [] && q != [] && r != []
    ensures var s := a + p + b + q + c + r + d;
      exists i: nat, j: nat, k: nat ::
        (i < j < k && OccursAt(s, p, i) && OccursAt(s, q, j) && OccursAt(s, r, k))
  {
    var s := a + p + b + q + c + r + d;
    var i := |a|;
    var j := i + |p| + |b|;
    var k := j + |q| + |c|;
    assert s[i..i + |p|] == p;
    assert s[j..j + |q|] == q;
    assert s[k..k + |r|] == r;
    assert OccursAt(s, p, i) && OccursAt(s, q, j) && OccursAt(s, r, k);
  }

  /** Stripping the prompt again changes nothing. */
  lemma PromptStripIdempotent(transcriptText: string, numQuestions: int)
    ensures Strip(BuildQuizPrompt(transcriptText, numQuestions)) == BuildQuizPrompt(transcriptText, numQuestions)
  {
    StripStripped(BuildQuizPrompt(transcriptText, numQuestions));
  }
}
