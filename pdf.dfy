/**
  The printable quiz of `export_pdf` (refactor_core/pdf_generator.py, and
  the same function in src/generate_outputs.py): the input is coerced to a
  list of question records, a block list is grown in two numbered loops,
  and the document builder writes it to `<output_dir>/<source_id>.pdf`.

  The student section lists the numbered questions with writing space; after
  one page break the teacher section repeats each question with its answer
  and explanation.
 */
module PdfExport {
  import opened Wrappers
  import opened Strings
  import opened Errors
  import opened Json
  import opened Document
  import opened Files

  const StudentTitle: string := "Open-Ended Quiz (Student Version)"
  const TeacherTitle: string := "Open-Ended Quiz (Teacher Version)"
  const NoArrayMessage: string := "Could not find valid JSON array in string"

  /** The span `re.search(r"\[.*\]", s, re.DOTALL)` matches: the first '[' to the last ']'. */
  function BracketSpan(s: string): (r: Option<string>)
    ensures r.Some? ==> |r.value| >= 2 && r.value[0] == '[' && r.value[|r.value| - 1] == ']'
  {
    match IndexOf(s, '[')
    case None => None
    case Some(i) =>
      match LastIndexOf(s, ']')
      case None => None
      case Some(j) => if i < j then Some(s[i..j + 1]) else None
  }

  /**
    The greedy match: there is one exactly when some '[' comes before some
    ']', and then it runs from the first '[' to the last ']'.
   */
  lemma BracketSpanSpec(s: string)
    ensures BracketSpan(s).None? <==>
      forall i, j :: 0 <= i < j < |s| ==> !(s[i] == '[' && s[j] == ']')
    ensures BracketSpan(s).Some? ==>
      exists i, e :: 0 <= i < e <= |s| && BracketSpan(s).value == s[i..e]
        && (forall k :: 0 <= k < i ==> s[k] != '[')
        && (forall k :: e <= k < |s| ==> s[k] != ']')
  {
    var first := IndexOf(s, '[');
    var last := LastIndexOf(s, ']');
    if first.Some? && last.Some? && first.value < last.value {
      var i, e := first.value, last.value + 1;
      assert BracketSpan(s).value == s[i..e];
    }
  }

  /**
    The checks at the top of `export_pdf`: a string is replaced by the decoded bracket span; then the
    value must be a list whose first item is a dict. The errors are the ones
    raised there (an empty list fails on `data[0]`).
   */
  function Coerce(data: Json, decode: Decoder): (r: Result<seq<Json>, PyError>)
    ensures r.Success? ==> |r.value| > 0 && r.value[0].JObject?
    ensures !data.JString? ==> (r.Success? <==> IsRecords(data))
    ensures IsRecords(data) ==> r == Success(data.items)
    ensures data.JString? && BracketSpan(data.s).None? ==> r == Failure(ValueError(NoArrayMessage))
    ensures data.JString? && BracketSpan(data.s).Some? && decode(BracketSpan(data.s).value).None?
      ==> r == Failure(JsonDecodeError)
    ensures data.JString? && BracketSpan(data.s).Some? && decode(BracketSpan(data.s).value).Some?
      ==> var v := decode(BracketSpan(data.s).value).value;
          (r.Success? <==> IsRecords(v)) && (IsRecords(v) ==> r == Success(v.items))
  {
    var decoded :=
      if data.JString? then
        match BracketSpan(data.s)
        case None => Failure(ValueError(NoArrayMessage))
        case Some(span) =>
          if decode(span).Some? then Success(decode(span).value) else Failure(JsonDecodeError)
      else Success(data);
    match decoded
    case Failure(e) => Failure(e)
    case Success(value) =>
      if !value.JArray? then Failure(TypeError)
      else if |value.items| == 0 then Failure(IndexError)
      else if !value.items[0].JObject? then Failure(TypeError)
      else Success(value.items)
  }

  /** A non-empty list whose first item is a dict: the only value the checks let through. */
  predicate IsRecords(v: Json) {
    v.JArray? && |v.items| > 0 && v.items[0].JObject?
  }

  /** `f"{d[key]}"`, or None where `d[key]` raises. */
  function Field(d: Json, key: string): (r: Option<string>)
    ensures r.Some? <==> d.JObject? && key in d.fields
  {
    match Subscript(d, key)
    case Failure(_) => None
    case Success(v) => Some(Display(v))
  }

  /** One quiz item as the teacher section prints it. */
  datatype Item = Item(question: string, answer: string, explanation: string)

  /** The questions of all items, or None when an item has none (the first loop raises). */
  function Questions(data: seq<Json>): (r: Option<seq<string>>)
    ensures r.Some? ==> |r.value| == |data|
  {
    if |data| == 0 then Some([])
    else
      match Questions(data[..|data| - 1])
      case None => None
      case Some(qs) =>
        match Field(data[|data| - 1], "question")
        case None => None
        case Some(q) => Some(qs + [q])
  }

  /** One record as the second loop reads it: all three fields, or None where one is missing. */
  function ItemOf(d: Json): (r: Option<Item>)
    ensures r.Some? <==>
      (d.JObject? && "question" in d.fields && "answer" in d.fields && "explanation" in d.fields)
    ensures r.Some? ==> r.value == Item(Display(d.fields["question"]), Display(d.fields["answer"]),
      Display(d.fields["explanation"]))
  {
    match Field(d, "question")
    case None => None
    case Some(q) =>
      match Field(d, "answer")
      case None => None
      case Some(a) =>
        match Field(d, "explanation")
        case None => None
        case Some(e) => Some(Item(q, a, e))
  }

  /** The items of all records, or None when a record lacks a field (a loop raises). */
  function Items(data: seq<Json>): (r: Option<seq<Item>>)
    ensures r.Some? ==> |r.value| == |data|
  {
    if |data| == 0 then Some([])
    else
      match Items(data[..|data| - 1])
      case None => None
      case Some(items) =>
        match ItemOf(data[|data| - 1])
        case None => None
        case Some(item) => Some(items + [item])
  }

  /**
    The first loop reads every record: it completes exactly when each record
    has a question, and question `k` is the one of record `k`.
   */
  lemma {:induction false} QuestionsAt(data: seq<Json>)
    ensures Questions(data).Some? <==> forall k :: 0 <= k < |data| ==> Field(data[k], "question").Some?
    ensures Questions(data).Some? ==>
      forall k :: 0 <= k < |data| ==> Questions(data).value[k] == Field(data[k], "question").value
    decreases |data|
  {
    if |data| > 0 {
      var n := |data| - 1;
      QuestionsAt(data[..n]);
      assert forall k :: 0 <= k < n ==> data[..n][k] == data[k];
    }
  }

  /**
    The second loop reads every record: it completes exactly when each
    record has all three fields, and item `k` is built from record `k`.
   */
  lemma {:induction false} ItemsAt(data: seq<Json>)
    ensures Items(data).Some? <==> forall k :: 0 <= k < |data| ==> ItemOf(data[k]).Some?
    ensures Items(data).Some? ==>
      forall k :: 0 <= k < |data| ==> Items(data).value[k] == ItemOf(data[k]).value
    decreases |data|
  {
    if |data| > 0 {
      var n := |data| - 1;
      ItemsAt(data[..n]);
      assert forall k :: 0 <= k < n ==> data[..n][k] == data[k];
    }
  }

  /** `f"{i}. {question}"`. */
  function Numbered(i: int, question: string): string {
    IntToString(i) + ". " + question
  }

  /** The rows of the student section for questions numbered from 1. */
  function StudentRows(questions: seq<string>): (r: seq<Block>)
    ensures |r| == 2 * |questions|
  {
    if |questions| == 0 then []
    else
      var n := |questions|;
      StudentRows(questions[..n - 1])
        + [Paragraph(Numbered(n, questions[n - 1]), Normal), Spacer(1, 84)]
  }

  /** The rows of the teacher section for items numbered from 1. */
  function TeacherRows(items: seq<Item>): (r: seq<Block>)
    ensures |r| == 4 * |items|
  {
    if |items| == 0 then []
    else
      var n := |items|;
      var item := items[n - 1];
      TeacherRows(items[..n - 1])
        + [Paragraph(Numbered(n, item.question), Normal),
           Paragraph("Answer: " + item.answer, Italic),
           Paragraph("Explanation: " + item.explanation, Normal),
           Spacer(1, 12)]
  }

  function SectionHead(title: string): seq<Block> {
    [Paragraph(title, Title), Spacer(1, 20)]
  }

  /** The questions of complete items, in order. */
  function QuestionsOf(items: seq<Item>): (r: seq<string>)
    ensures |r| == |items|
  {
    if |items| == 0 then [] else QuestionsOf(items[..|items| - 1]) + [items[|items| - 1].question]
  }

  lemma {:induction false} QuestionsOfAt(items: seq<Item>, k: nat)
    requires k < |items|
    ensures QuestionsOf(items)[k] == items[k].question
    decreases |items|
  {
    if k < |items| - 1 {
      QuestionsOfAt(items[..|items| - 1], k);
    }
  }

  /** The two titled sections around the page break. */
  function Frame(studentRows: seq<Block>, teacherRows: seq<Block>): seq<Block> {
    SectionHead(StudentTitle) + studentRows + [PageBreak] + SectionHead(TeacherTitle) + teacherRows
  }

  /** The block list handed to the document builder. */
  function Layout(items: seq<Item>): seq<Block> {
    Frame(StudentRows(QuestionsOf(items)), TeacherRows(items))
  }

  /** Once a record has failed, the later records change nothing. */
  lemma {:induction false} QuestionsStick(data: seq<Json>, k: nat)
    requires k <= |data| && Questions(data[..k]).None?
    ensures Questions(data).None?
    decreases |data|
  {
    if k < |data| {
      var front := data[..|data| - 1];
      assert front[..k] == data[..k];
      QuestionsStick(front, k);
    } else {
      assert data[..k] == data;
    }
  }

  lemma {:induction false} ItemsStick(data: seq<Json>, k: nat)
    requires k <= |data| && Items(data[..k]).None?
    ensures Items(data).None?
    decreases |data|
  {
    if k < |data| {
      var front := data[..|data| - 1];
      assert front[..k] == data[..k];
      ItemsStick(front, k);
    } else {
      assert data[..k] == data;
    }
  }

  /** Complete items have the questions the first loop reads. */
  lemma {:induction false} ItemsHaveQuestions(data: seq<Json>)
    requires Items(data).Some?
    ensures Questions(data) == Some(QuestionsOf(Items(data).value))
    decreases |data|
  {
    if |data| > 0 {
      var n := |data| - 1;
      ItemsHaveQuestions(data[..n]);
      var items := Items(data[..n]).value;
      assert (items + [ItemOf(data[n]).value])[..n] == items;
    }
  }

  lemma StudentRowsSnoc(questions: seq<string>, q: string)
    ensures StudentRows(questions + [q])
      == StudentRows(questions) + [Paragraph(Numbered(|questions| + 1, q), Normal), Spacer(1, 84)]
  {
    assert (questions + [q])[..|questions|] == questions;
  }

  lemma TeacherRowsSnoc(items: seq<Item>, item: Item)
    ensures TeacherRows(items + [item])
      == TeacherRows(items)
        + [Paragraph(Numbered(|items| + 1, item.question), Normal),
           Paragraph("Answer: " + item.answer, Italic),
           Paragraph("Explanation: " + item.explanation, Normal),
           Spacer(1, 12)]
  {
    assert (items + [item])[..|items|] == items;
  }

  /**
    The first loop appends each record's numbered question and a
    writing space to `flowables`. None where a record has no question.
   */
  method AppendStudentRows(flowables: seq<Block>, data: seq<Json>) returns (r: Option<seq<Block>>)
    ensures r == match Questions(data)
      case None => None
      case Some(questions) => Some(flowables + StudentRows(questions))
  {
    var blocks := flowables;
    var i := 0;
    while i < |data|
      invariant 0 <= i <= |data|
      invariant Questions(data[..i]).Some?
      invariant blocks == flowables + StudentRows(Questions(data[..i]).value)
    {
      var q := Field(data[i], "question");
      assert data[..i + 1][..i] == data[..i];
      if q.None? {
        QuestionsStick(data, i + 1);
        return None;
      }
      var qs := Questions(data[..i]).value;
      assert Questions(data[..i + 1]).value == qs + [q.value];
      StudentRowsSnoc(qs, q.value);
      blocks := blocks + [Paragraph(Numbered(i + 1, q.value), Normal), Spacer(1, 84)];
      i := i + 1;
    }
    assert data[..i] == data;
    r := Some(blocks);
  }

  /**
    The second loop appends each record's numbered question,
    answer, explanation and a space. None where a record lacks a field.
   */
  method AppendTeacherRows(flowables: seq<Block>, data: seq<Json>) returns (r: Option<seq<Block>>)
    ensures r == match Items(data)
      case None => None
      case Some(items) => Some(flowables + TeacherRows(items))
  {
    var blocks := flowables;
    var j := 0;
    while j < |data|
      invariant 0 <= j <= |data|
      invariant Items(data[..j]).Some?
      invariant blocks == flowables + TeacherRows(Items(data[..j]).value)
    {
      var item := ItemOf(data[j]);
      assert data[..j + 1][..j] == data[..j];
      if item.None? {
        ItemsStick(data, j + 1);
        return None;
      }
      var items := Items(data[..j]).value;
      assert Items(data[..j + 1]).value == items + [item.value];
      TeacherRowsSnoc(items, item.value);
      blocks := blocks
        + [Paragraph(Numbered(j + 1, item.value.question), Normal),
           Paragraph("Answer: " + item.value.answer, Italic),
           Paragraph("Explanation: " + item.value.explanation, Normal),
           Spacer(1, 12)];
      j := j + 1;
    }
    assert data[..j] == data;
    r := Some(blocks);
  }

  /** The block list of both sections. None where a loop raises. */
  method BuildFlowables(data: seq<Json>) returns (r: Option<seq<Block>>)
    ensures r == match Items(data)
      case None => None
      case Some(items) => Some(Layout(items))
  {
    var student := AppendStudentRows(SectionHead(StudentTitle), data);
    if student.None? {
      if Items(data).Some? {
        ItemsHaveQuestions(data);
      }
      return None;
    }
    r := AppendTeacherRows(student.value + [PageBreak] + SectionHead(TeacherTitle), data);
    if r.Some? {
      ItemsHaveQuestions(data);
    }
  }

  /** `output_dir / f"{source_id}.pdf"`. */
  function PdfPath(outputDir: string, sourceId: string): string {
    PathJoin(outputDir, sourceId + ".pdf")
  }

  /**
    `export_pdf`. `built` says whether `doc.build` succeeds, which is the
    only way the file is written. An exception raised before `file_path` is
    bound makes the handler's own reference to it raise `UnboundLocalError`;
    one raised after it is logged and the path is returned all the same.
   */
  method ExportPdf(disk: Disk, data: Json, sourceId: string, outputDir: string, decode: Decoder,
                   built: bool)
    returns (r: Result<string, PyError>)
    modifies disk
    ensures Coerce(data, decode).Failure? ==>
      r == Failure(UnboundLocalError) && disk.files == old(disk.files)
    ensures Coerce(data, decode).Success? ==> r == Success(PdfPath(outputDir, sourceId))
    ensures disk.files == match Coerce(data, decode)
      case Success(records) =>
        if built && Items(records).Some?
        then old(disk.files)[PdfPath(outputDir, sourceId) := PdfFile(Layout(Items(records).value))]
        else old(disk.files)
      case Failure(_) => old(disk.files)
  {
    var records := Coerce(data, decode);
    if records.Failure? {
      return Failure(UnboundLocalError);
    }
    var filePath := PdfPath(outputDir, sourceId);
    var flowables := BuildFlowables(records.value);
    if flowables.Some? && built {
      disk.Write(filePath, PdfFile(flowables.value));
    }
    r := Success(filePath);
  }

  /** Student row `k` (from 0) is question `k + 1` followed by its writing space. */
  lemma {:induction false} StudentRowsAt(questions: seq<string>, k: nat)
    requires k < |questions|
    ensures StudentRows(questions)[2 * k] == Paragraph(Numbered(k + 1, questions[k]), Normal)
    ensures StudentRows(questions)[2 * k + 1] == Spacer(1, 84)
    decreases |questions|
  {
    var n := |questions| - 1;
    if k < n {
      StudentRowsAt(questions[..n], k);
    }
  }

  /** Teacher rows `4k` to `4k+3` are item `k + 1`'s question, answer, explanation and space. */
  lemma {:induction false} TeacherRowsAt(items: seq<Item>, k: nat)
    requires k < |items|
    ensures TeacherRows(items)[4 * k] == Paragraph(Numbered(k + 1, items[k].question), Normal)
    ensures TeacherRows(items)[4 * k + 1] == Paragraph("Answer: " + items[k].answer, Italic)
    ensures TeacherRows(items)[4 * k + 2] == Paragraph("Explanation: " + items[k].explanation, Normal)
    ensures TeacherRows(items)[4 * k + 3] == Spacer(1, 12)
    decreases |items|
  {
    var n := |items| - 1;
    if k < n {
      TeacherRowsAt(items[..n], k);
    }
  }

  /**
    For N items the document has 6N+5 blocks: the student title and its
    spacer, the numbered questions with their spaces, the page break at
    index 2N+2, the teacher title and spacer, and four blocks per item.
   */
  lemma LayoutShape(items: seq<Item>)
    ensures var n := |items|; var l := Layout(items);
      && |l| == 6 * n + 5
      && l[0] == Paragraph(StudentTitle, Title) && l[1] == Spacer(1, 20)
      && l[2 * n + 2] == PageBreak
      && l[2 * n + 3] == Paragraph(TeacherTitle, Title) && l[2 * n + 4] == Spacer(1, 20)
  {
  }

  /** Where the two sections' rows sit around the titles and the page break. */
  lemma FrameAt(rows1: seq<Block>, rows2: seq<Block>, i: nat)
    ensures i < |rows1| ==> Frame(rows1, rows2)[2 + i] == rows1[i]
    ensures i < |rows2| ==> Frame(rows1, rows2)[5 + |rows1| + i] == rows2[i]
  {
  }

  /** The student section numbers the questions 1..N in input order, each followed by writing space. */
  lemma StudentNumbering(items: seq<Item>, k: nat)
    requires k < |items|
    ensures Layout(items)[2 + 2 * k] == Paragraph(Numbered(k + 1, items[k].question), Normal)
    ensures Layout(items)[3 + 2 * k] == Spacer(1, 84)
  {
    var rows := StudentRows(QuestionsOf(items));
    FrameAt(rows, TeacherRows(items), 2 * k);
    FrameAt(rows, TeacherRows(items), 2 * k + 1);
    StudentRowsAt(QuestionsOf(items), k);
    QuestionsOfAt(items, k);
  }

  /**
    The teacher section numbers the items 1..N in the same order, each with
    its answer (italic), its explanation and a space.
   */
  lemma TeacherNumbering(items: seq<Item>, k: nat)
    requires k < |items|
    ensures var l := Layout(items); var at := 2 * |items| + 5 + 4 * k;
      && l[at] == Paragraph(Numbered(k + 1, items[k].question), Normal)
      && l[at + 1] == Paragraph("Answer: " + items[k].answer, Italic)
      && l[at + 2] == Paragraph("Explanation: " + items[k].explanation, Normal)
      && l[at + 3] == Spacer(1, 12)
  {
    TeacherRowsAt(items, k);
    var rows2 := TeacherRows(items);
    FrameRun(StudentRows(QuestionsOf(items)), rows2, 4 * k, rows2[4 * k..4 * k + 4]);
  }

  /** A run of teacher rows sits at the same offset after the student section. */
  lemma FrameRun(rows1: seq<Block>, rows2: seq<Block>, i: nat, run: seq<Block>)
    requires i + |run| <= |rows2| && rows2[i..i + |run|] == run
    ensures Frame(rows1, rows2)[5 + |rows1| + i..5 + |rows1| + i + |run|] == run
  {
    var l := Frame(rows1, rows2);
    assert l == (SectionHead(StudentTitle) + rows1 + [PageBreak] + SectionHead(TeacherTitle)) + rows2;
  }

  lemma {:induction false} StudentRowsNoBreak(questions: seq<string>)
    ensures forall i :: 0 <= i < |StudentRows(questions)| ==> StudentRows(questions)[i] != PageBreak
    decreases |questions|
  {
    if |questions| > 0 {
      StudentRowsNoBreak(questions[..|questions| - 1]);
    }
  }

  lemma {:induction false} TeacherRowsNoBreak(items: seq<Item>)
    ensures forall i :: 0 <= i < |TeacherRows(items)| ==> TeacherRows(items)[i] != PageBreak
    decreases |items|
  {
    if |items| > 0 {
      TeacherRowsNoBreak(items[..|items| - 1]);
    }
  }

  lemma FrameSingleBreak(rows1: seq<Block>, rows2: seq<Block>, i: nat)
    requires forall j :: 0 <= j < |rows1| ==> rows1[j] != PageBreak
    requires forall j :: 0 <= j < |rows2| ==> rows2[j] != PageBreak
    requires i < |Frame(rows1, rows2)|
    ensures Frame(rows1, rows2)[i] == PageBreak <==> i == 2 + |rows1|
  {
    if 2 <= i < 2 + |rows1| {
      FrameAt(rows1, rows2, i - 2);
    } else if 5 + |rows1| <= i {
      FrameAt(rows1, rows2, i - 5 - |rows1|);
    }
  }

  /**
    What `export_pdf` prints for the records it received: for complete
    records, record `k` appears as question `k + 1` in the student section
    and again, with its answer and explanation, in the teacher section.
   */
  lemma RecordNumbering(data: seq<Json>, k: nat)
    requires k < |data| && forall j :: 0 <= j < |data| ==> ItemOf(data[j]).Some?
    ensures Items(data).Some? && data[k].JObject?
      && "question" in data[k].fields && "answer" in data[k].fields && "explanation" in data[k].fields
    ensures var l := Layout(Items(data).value); var d := data[k].fields;
      && l[2 + 2 * k] == Paragraph(Numbered(k + 1, Display(d["question"])), Normal)
      && l[2 * |data| + 5 + 4 * k] == Paragraph(Numbered(k + 1, Display(d["question"])), Normal)
      && l[2 * |data| + 6 + 4 * k] == Paragraph("Answer: " + Display(d["answer"]), Italic)
      && l[2 * |data| + 7 + 4 * k] == Paragraph("Explanation: " + Display(d["explanation"]), Normal)
  {
    ItemsAt(data);
    StudentNumbering(Items(data).value, k);
    TeacherNumbering(Items(data).value, k);
  }

  /** The page break is the only one: it separates the two sections. */
  lemma SinglePageBreak(items: seq<Item>, i: nat)
    requires i < |Layout(items)|
    ensures Layout(items)[i] == PageBreak <==> i == 2 * |items| + 2
  {
    StudentRowsNoBreak(QuestionsOf(items));
    TeacherRowsNoBreak(items);
    FrameSingleBreak(StudentRows(QuestionsOf(items)), TeacherRows(items), i);
  }
}
