/** The looser question spreadsheet of the Django admin
    (`TestAdmin.import_excel` in backend/tests/admin.py). Column 2 of rows
    1-5 holds the test's title, description, position, time limit and
    passing score. Every row from 8 on whose first cell is filled and does
    not look like a header becomes a question: the filled cells of columns
    2-5 are its options and the number in column 6 picks the correct one.
    The same page offers a template sheet to download. */
module AdminImport {
  import opened Common
  import opened TestModels
  import opened Worksheet

  const TemplateHeaderRow := 7
  const FirstQuestionRow := 8

  // ---------------------------------------------------------------------
  // Reading a sheet

  /** What the import reads for the test itself. */
  datatype TestInfo = TestInfo(title: string, description: string, timeLimit: int,
                               passingScore: int, position: Option<string>)

  /** Either the import stops with an error message before anything is
      created, or the test is created together with its questions. */
  datatype AdminImportResult = Rejected | Imported(info: TestInfo, questions: seq<QuestionDraft>)

  /** What one row from row 8 on turns into. */
  datatype AdminRow = SkipRow | QuestionRow(text: string, options: seq<OptionDraft>)

  /** `int(v or 60)`: an empty cell counts as 60; a filled one must be a
      whole number, or the import stops. */
  function IntOr60(v: string): Option<int> {
    if Truthy(v) then ParseInt(v) else Some(60)
  }

  /** The test fields from column 2 of rows 1-5. A filled position is
      looked up (or created) by its stripped name. */
  function ReadTestInfo(ws: Sheet): Option<TestInfo> {
    var limit := IntOr60(Cell(ws, 4, 2));
    var score := IntOr60(Cell(ws, 5, 2));
    if limit.None? || score.None? then None
    else
      var position := Cell(ws, 3, 2);
      Some(TestInfo(Cell(ws, 1, 2), Cell(ws, 2, 2), limit.value, score.value,
                    if Truthy(position) then Some(Strip(position)) else None))
  }

  /** A first cell the import takes for a header: its lower-cased text
      mentions "question" or "option". */
  predicate LooksLikeHeader(text: string) {
    Contains(Lower(text), "question") || Contains(Lower(text), "option")
  }

  /** The filled cells among columns 2 .. upTo - 1 of a row, in column
      order and as written (not stripped). */
  function OptionCells(ws: Sheet, row: int, upTo: int): (opts: seq<string>)
    ensures |opts| <= if upTo <= 2 then 0 else upTo - 2
    ensures forall j :: 0 <= j < |opts| ==> Truthy(opts[j])
    decreases upTo
  {
    if upTo <= 2 then []
    else
      var v := Cell(ws, row, upTo - 1);
      var prev := OptionCells(ws, row, upTo - 1);
      if Truthy(v) then prev + [v] else prev
  }

  /** The 0-based index of the correct option read from the answer cell:
      none for an empty cell, the number minus one for a number (whether
      or not an option has that index), and 0 when `int()` fails. */
  function CorrectIndex(v: string): Option<int> {
    if !Truthy(v) then None
    else match ParseInt(v)
      case None => Some(0)
      case Some(n) => Some(n - 1)
  }

  /** The options created for a question: numbered from 1, and correct
      exactly at the correct index. */
  function AdminOptions(texts: seq<string>, correct: Option<int>): seq<OptionDraft> {
    seq(|texts|, j requires 0 <= j < |texts| => OptionDraft(texts[j], correct == Some(j), j + 1))
  }

  function ReadAdminRow(ws: Sheet, row: int): AdminRow {
    var text := Cell(ws, row, 1);
    if !Truthy(text) || LooksLikeHeader(text) then SkipRow
    else QuestionRow(text, AdminOptions(OptionCells(ws, row, 6), CorrectIndex(Cell(ws, row, 6))))
  }

  /** Acting on one row: a question row adds the next question, numbered
      one past the questions created before it. */
  function AddRow(prev: seq<QuestionDraft>, row: AdminRow): seq<QuestionDraft> {
    match row
    case SkipRow => prev
    case QuestionRow(text, os) => prev + [QuestionDraft(text, |prev| + 1, os)]
  }

  /** The questions created from rows `lo` .. `hi` - 1, in order. */
  function AdminRows(ws: Sheet, lo: int, hi: int): seq<QuestionDraft>
    decreases hi - lo
  {
    if hi <= lo then [] else AddRow(AdminRows(ws, lo, hi - 1), ReadAdminRow(ws, hi - 1))
  }

  lemma AdminRowsStep(ws: Sheet, lo: int, hi: int)
    requires lo <= hi
    ensures AdminRows(ws, lo, hi + 1) == AddRow(AdminRows(ws, lo, hi), ReadAdminRow(ws, hi))
  {
  }

  lemma AdminRowsEmpty(ws: Sheet, lo: int, hi: int)
    requires hi <= lo
    ensures AdminRows(ws, lo, hi) == []
  {
  }

  function AdminImportOf(ws: Sheet): AdminImportResult {
    match ReadTestInfo(ws)
    case None => Rejected
    case Some(info) => Imported(info, AdminRows(ws, FirstQuestionRow, ws.maxRow + 1))
  }

  method ImportExcel(ws: Sheet) returns (r: AdminImportResult)
    ensures r == AdminImportOf(ws)
  {
    var info := ReadTestInfo(ws);
    if info.None? {
      return Rejected;
    }
    var questions: seq<QuestionDraft> := [];
    var currentRow := FirstQuestionRow;
    var questionOrder := 1;
    while currentRow <= ws.maxRow
      invariant FirstQuestionRow <= currentRow
      invariant currentRow <= ws.maxRow + 1 || currentRow == FirstQuestionRow
      invariant questions == AdminRows(ws, FirstQuestionRow, currentRow)
      invariant questionOrder == |questions| + 1
      decreases ws.maxRow - currentRow
    {
      var row := ReadQuestionRow(ws, currentRow);
      AdminRowsStep(ws, FirstQuestionRow, currentRow);
      questions, questionOrder := CreateQuestion(questions, questionOrder, row);
      currentRow := currentRow + 1;
    }
    if currentRow != ws.maxRow + 1 {
      AdminRowsEmpty(ws, FirstQuestionRow, ws.maxRow + 1);
    }
    r := Imported(info.value, questions);
  }

  /** Acting on one row: create its question with the current order and
      move the order on, or do nothing for a skipped row. */
  method CreateQuestion(questions: seq<QuestionDraft>, questionOrder: int, row: AdminRow)
    returns (questions': seq<QuestionDraft>, questionOrder': int)
    requires questionOrder == |questions| + 1
    ensures questions' == AddRow(questions, row) && questionOrder' == |questions'| + 1
  {
    questions', questionOrder' := questions, questionOrder;
    match row {
      case SkipRow =>
      case QuestionRow(text, created) =>
        questions' := questions + [QuestionDraft(text, questionOrder, created)];
        questionOrder' := questionOrder + 1;
    }
  }

  /** One turn of the row loop: skip an empty or header-like row, or read
      the question's options and its correct index. */
  method ReadQuestionRow(ws: Sheet, currentRow: int) returns (row: AdminRow)
    ensures row == ReadAdminRow(ws, currentRow)
  {
    var questionText := Cell(ws, currentRow, 1);
    if !Truthy(questionText) {
      return SkipRow;
    }
    var lower := Lower(questionText);
    if Contains(lower, "question") || Contains(lower, "option") {
      return SkipRow;
    }
    assert !LooksLikeHeader(questionText);
    var options := ReadOptionCells(ws, currentRow);
    var correctIndex: Option<int> := None;
    var correctAnswer := Cell(ws, currentRow, 6);
    if Truthy(correctAnswer) {
      match ParseInt(correctAnswer) {
        case Some(n) => correctIndex := Some(n - 1);
        case None => correctIndex := Some(0);
      }
    }
    assert correctIndex == CorrectIndex(correctAnswer);
    var created := CreateOptions(options, correctIndex);
    row := QuestionRow(questionText, created);
  }

  /** The loop over columns 2-5 collecting the filled cells. */
  method ReadOptionCells(ws: Sheet, row: int) returns (options: seq<string>)
    ensures options == OptionCells(ws, row, 6)
  {
    options := [];
    for col := 2 to 6
      invariant options == OptionCells(ws, row, col)
    {
      var optionText := Cell(ws, row, col);
      if Truthy(optionText) {
        options := options + [optionText];
      }
    }
  }

  /** The loop creating one option per collected cell. */
  method CreateOptions(options: seq<string>, correctIndex: Option<int>) returns (created: seq<OptionDraft>)
    ensures created == AdminOptions(options, correctIndex)
  {
    created := [];
    for idx := 0 to |options|
      invariant created == AdminOptions(options, correctIndex)[..idx]
    {
      created := created + [OptionDraft(options[idx], correctIndex == Some(idx), idx + 1)];
    }
  }

  // ---------------------------------------------------------------------
  // What an import produces

  /** The test fields come from column 2 of rows 1, 2, 4 and 5; empty time
      limit and passing score cells count as 60, and a filled one that is
      not a number rejects the whole import. */
  lemma TestInfoRead(ws: Sheet)
    ensures var limit := Cell(ws, 4, 2);
      var score := Cell(ws, 5, 2);
      ((Truthy(limit) && ParseInt(limit).None?) || (Truthy(score) && ParseInt(score).None?))
        <==> AdminImportOf(ws) == Rejected
    ensures var info := ReadTestInfo(ws);
      info.Some? ==>
        info.value.title == Cell(ws, 1, 2) && info.value.description == Cell(ws, 2, 2)
        && info.value.timeLimit == (if Truthy(Cell(ws, 4, 2)) then ParseInt(Cell(ws, 4, 2)).value else 60)
        && info.value.passingScore == (if Truthy(Cell(ws, 5, 2)) then ParseInt(Cell(ws, 5, 2)).value else 60)
  {
  }

  /** A time limit and passing score written as numbers are read back. */
  lemma WrittenLimitsRead(ws: Sheet, limit: int, score: int)
    requires Cell(ws, 4, 2) == IntToString(limit) && Cell(ws, 5, 2) == IntToString(score)
    ensures ReadTestInfo(ws).Some?
    ensures ReadTestInfo(ws).value.timeLimit == limit && ReadTestInfo(ws).value.passingScore == score
  {
    IntToStringRoundTrip(limit);
    IntToStringRoundTrip(score);
  }

  /** A row becomes a question exactly when its first cell is filled and
      does not look like a header; the question keeps that cell as it is
      (even with no options at all), and its options are the filled
      option cells in column order, numbered from 1. */
  lemma ReadAdminRowCases(ws: Sheet, r: int)
    ensures ReadAdminRow(ws, r).QuestionRow? <==> Truthy(Cell(ws, r, 1)) && !LooksLikeHeader(Cell(ws, r, 1))
    ensures ReadAdminRow(ws, r).QuestionRow? ==>
      var q := ReadAdminRow(ws, r);
      var cells := OptionCells(ws, r, 6);
      q.text == Cell(ws, r, 1) && |q.options| == |cells|
      && forall j :: 0 <= j < |cells| ==> q.options[j].text == cells[j] && q.options[j].order == j + 1
  {
  }

  /** Which option is correct: none for an empty answer cell, the first
      for an answer that is not a number, the one with number n for n,
      and none for a number out of range; never two. A question row's
      options are `AdminOptions` of its option cells and its answer cell. */
  lemma CorrectOptionCases(texts: seq<string>, v: string)
    ensures var os := AdminOptions(texts, CorrectIndex(v));
      (forall i, j :: 0 <= i < |os| && 0 <= j < |os| && os[i].isCorrect && os[j].isCorrect ==> i == j)
      && (!Truthy(v) ==> forall j :: 0 <= j < |os| ==> !os[j].isCorrect)
      && (Truthy(v) && ParseInt(v).None? ==> forall j :: 0 <= j < |os| ==> (os[j].isCorrect <==> j == 0))
      && (Truthy(v) && ParseInt(v).Some? ==>
            forall j :: 0 <= j < |os| ==> (os[j].isCorrect <==> j == ParseInt(v).value - 1))
  {
  }

  /** The columns among 2 .. upTo - 1 of a row whose cells are filled, in
      increasing order. */
  function FilledColumns(ws: Sheet, row: int, upTo: int): (cols: seq<int>)
    ensures forall j :: 0 <= j < |cols| ==> 2 <= cols[j] < upTo && Truthy(Cell(ws, row, cols[j]))
    ensures forall j, k :: 0 <= j < k < |cols| ==> cols[j] < cols[k]
    ensures forall c :: 2 <= c < upTo && Truthy(Cell(ws, row, c)) ==> c in cols
    decreases upTo
  {
    if upTo <= 2 then []
    else
      var prev := FilledColumns(ws, row, upTo - 1);
      if Truthy(Cell(ws, row, upTo - 1)) then prev + [upTo - 1] else prev
  }

  /** The options of a row are the cells of its filled columns, in order. */
  lemma {:induction false} OptionCellsAreFilledColumns(ws: Sheet, row: int, upTo: int)
    ensures var cols := FilledColumns(ws, row, upTo);
      var opts := OptionCells(ws, row, upTo);
      |opts| == |cols| && forall j :: 0 <= j < |cols| ==> opts[j] == Cell(ws, row, cols[j])
    decreases upTo
  {
    if upTo > 2 {
      OptionCellsAreFilledColumns(ws, row, upTo - 1);
    }
  }

  /** Questions are numbered 1, 2, 3, ... in the order they are created. */
  lemma {:induction false} QuestionOrders(ws: Sheet, lo: int, hi: int)
    decreases hi - lo
    ensures forall i :: 0 <= i < |AdminRows(ws, lo, hi)| ==> AdminRows(ws, lo, hi)[i].order == i + 1
  {
    if lo < hi {
      QuestionOrders(ws, lo, hi - 1);
    }
  }

  /** A row is read from its own six cells only. */
  lemma {:induction false} OptionCellsFrame(ws: Sheet, ws': Sheet, r: int, upTo: int)
    requires forall c :: 2 <= c < upTo ==> Cell(ws, r, c) == Cell(ws', r, c)
    ensures OptionCells(ws, r, upTo) == OptionCells(ws', r, upTo)
    decreases upTo
  {
    if upTo > 2 {
      OptionCellsFrame(ws, ws', r, upTo - 1);
    }
  }

  /** The questions depend on nothing but the six cells of the rows read:
      the test fields, the header on row 7 and any other cell never turn
      into questions. */
  lemma {:induction false} AdminRowsFrame(ws: Sheet, ws': Sheet, lo: int, hi: int)
    requires forall r, c :: lo <= r < hi && 1 <= c <= 6 ==> Cell(ws, r, c) == Cell(ws', r, c)
    ensures AdminRows(ws, lo, hi) == AdminRows(ws', lo, hi)
    decreases hi - lo
  {
    if lo < hi {
      AdminRowsFrame(ws, ws', lo, hi - 1);
      OptionCellsFrame(ws, ws', hi - 1, 6);
      assert Cell(ws, hi - 1, 1) == Cell(ws', hi - 1, 1) && Cell(ws, hi - 1, 6) == Cell(ws', hi - 1, 6);
    }
  }

  // ---------------------------------------------------------------------
  // Header-like first cells

  /** Even a genuine question is skipped when it mentions an option. */
  lemma GenuineQuestionSkipped(ws: Sheet, r: int)
    requires Cell(ws, r, 1) == "Which option is correct?"
    ensures Truthy(Cell(ws, r, 1)) && ReadAdminRow(ws, r) == SkipRow
  {
    MentionsOption();
  }

  lemma MentionsOption()
    ensures Contains(Lower("Which option is correct?"), "option")
  {
    assert LowerMatchesFrom("Which option is correct?", "option", 6, 0);
    LowerMatchContains("Which option is correct?", "option", 6);
  }

  /** From its `k`-th character on, `t` appears in `s`, lower-cased, at
      position `i`. */
  predicate LowerMatchesFrom(s: string, t: string, i: nat, k: nat)
    decreases |t| - k
  {
    k >= |t| || (i + k < |s| && LowerChar(s[i + k]) == t[k] && LowerMatchesFrom(s, t, i, k + 1))
  }

  lemma LowerMatchContains(s: string, t: string, i: nat)
    requires i + |t| <= |s| && LowerMatchesFrom(s, t, i, 0)
    ensures Contains(Lower(s), t)
  {
    var l := Lower(s);
    forall k | 0 <= k < |t| ensures l[i + k] == t[k] {
      LowerMatchesAt(s, t, i, 0, k);
    }
    assert l[i..i + |t|] == t;
    ContainsAt(l, t, i);
  }

  lemma {:induction false} LowerMatchesAt(s: string, t: string, i: nat, k: nat, j: nat)
    requires LowerMatchesFrom(s, t, i, k) && k <= j < |t|
    ensures i + j < |s| && LowerChar(s[i + j]) == t[j]
    decreases j - k
  {
    if k < j {
      LowerMatchesAt(s, t, i, k + 1, j);
    }
  }

  /** From position `i` on, no two neighbouring characters of `s`,
      lower-cased, are `a` then `b`. */
  predicate LacksLowerPair(s: string, a: char, b: char, i: nat)
    decreases |s| - i
  {
    i + 1 >= |s| || (!(LowerChar(s[i]) == a && LowerChar(s[i + 1]) == b) && LacksLowerPair(s, a, b, i + 1))
  }

  lemma {:induction false} LacksPairNotContains(s: string, t: string, i: nat)
    requires |t| >= 2 && LacksLowerPair(s, t[0], t[1], i)
    ensures forall k :: i <= k <= |s| - |t| ==> !StartsWith(Lower(s)[k..], t)
    decreases |s| - i
  {
    if i + 1 < |s| {
      LacksPairNotContains(s, t, i + 1);
      var l := Lower(s);
      if i <= |s| - |t| {
        assert l[i..][0] == l[i] && l[i..][1] == l[i + 1];
      }
    }
  }

  /** A text in which, lower-cased, "q" is never followed by "u" nor "o"
      by "p" cannot mention "question" or "option". */
  lemma NotHeaderLike(s: string)
    requires LacksLowerPair(s, 'q', 'u', 0) && LacksLowerPair(s, 'o', 'p', 0)
    ensures !LooksLikeHeader(s)
  {
    LacksPairNotContains(s, "question", 0);
    LacksPairNotContains(s, "option", 0);
  }

  // ---------------------------------------------------------------------
  // The downloadable template

  const TemplateLabels: seq<string> :=
    ["Title:", "Description:", "Position:", "Time Limit (minutes):", "Passing Score (%):"]
  const TemplateValues: seq<string> :=
    ["Example Test", "This is an example test description", "Software Engineer", IntToString(60), IntToString(70)]
  const TemplateHeaders: seq<string> :=
    ["Question", "Option 1", "Option 2", "Option 3", "Option 4", "Correct Answer (1-4)"]
  const ExampleQuestions: seq<seq<string>> :=
    [["What is Python?", "A programming language", "A snake", "A framework", "A database", IntToString(1)],
     ["What is Django?", "A web framework", "A database", "A language", "A tool", IntToString(1)],
     ["What is REST API?", "An API architecture", "A database", "A language", "A framework", IntToString(1)]]

  /** The template, cell by cell: labels and example values in columns 1
      and 2 of rows 1-5, the question headers on row 7 and one example
      question on each of rows 8-10; every other cell is empty. */
  function TemplateCell(r: int, c: int): string {
    if 1 <= r <= 5 && c == 1 then TemplateLabels[r - 1]
    else if 1 <= r <= 5 && c == 2 then TemplateValues[r - 1]
    else if r == TemplateHeaderRow && 1 <= c <= 6 then TemplateHeaders[c - 1]
    else if FirstQuestionRow <= r < FirstQuestionRow + 3 && 1 <= c <= 6 then
      ExampleQuestions[r - FirstQuestionRow][c - 1]
    else ""
  }

  /** `cells` holds the template's cells before column `col` of row `row`
      and nothing from there on. */
  ghost predicate TemplateUpTo(cells: map<(int, int), string>, row: int, col: int) {
    forall r, c :: Get(cells, r, c) == if r < row || (r == row && c < col) then TemplateCell(r, c) else ""
  }

  lemma TemplateStep(cells: map<(int, int), string>, row: int, col: int)
    requires TemplateUpTo(cells, row, col)
    ensures TemplateUpTo(cells[(row, col) := TemplateCell(row, col)], row, col + 1)
  {
  }

  /** No row of the template goes past column 6. */
  lemma TemplateNextRow(cells: map<(int, int), string>, row: int)
    requires TemplateUpTo(cells, row, 7)
    ensures TemplateUpTo(cells, row + 1, 1)
  {
  }

  /** Nothing of the template lies below row 10. */
  lemma TemplateComplete(cells: map<(int, int), string>, row: int)
    requires TemplateUpTo(cells, row, 1) && row > FirstQuestionRow + 2
    ensures forall r, c :: Get(cells, r, c) == TemplateCell(r, c)
  {
  }

  method DownloadTemplate() returns (ws: Sheet)
    ensures ws.maxRow == FirstQuestionRow + |ExampleQuestions| - 1
    ensures forall r, c :: Cell(ws, r, c) == TemplateCell(r, c)
  {
    var cells := WriteTestInfo();
    cells := WriteHeaders(cells);
    for i := 0 to |ExampleQuestions|
      invariant TemplateUpTo(cells, FirstQuestionRow + i, 1)
    {
      cells := WriteExample(cells, i);
    }
    TemplateComplete(cells, FirstQuestionRow + |ExampleQuestions|);
    ws := Sheet(cells, FirstQuestionRow + |ExampleQuestions| - 1);
  }

  /** The labels and example values of rows 1-5. */
  method WriteTestInfo() returns (cells: map<(int, int), string>)
    ensures TemplateUpTo(cells, TemplateHeaderRow, 1)
  {
    cells := map[];
    cells := cells[(1, 1) := "Title:"];
    cells := cells[(2, 1) := "Description:"];
    cells := cells[(3, 1) := "Position:"];
    cells := cells[(4, 1) := "Time Limit (minutes):"];
    cells := cells[(5, 1) := "Passing Score (%):"];
    cells := cells[(1, 2) := "Example Test"];
    cells := cells[(2, 2) := "This is an example test description"];
    cells := cells[(3, 2) := "Software Engineer"];
    cells := cells[(4, 2) := IntToString(60)];
    cells := cells[(5, 2) := IntToString(70)];
  }

  /** The question headers of row 7. */
  method WriteHeaders(cells: map<(int, int), string>) returns (cells': map<(int, int), string>)
    requires TemplateUpTo(cells, TemplateHeaderRow, 1)
    ensures TemplateUpTo(cells', FirstQuestionRow, 1)
  {
    cells' := cells;
    for col := 1 to |TemplateHeaders| + 1
      invariant TemplateUpTo(cells', TemplateHeaderRow, col)
    {
      TemplateStep(cells', TemplateHeaderRow, col);
      cells' := cells'[(TemplateHeaderRow, col) := TemplateHeaders[col - 1]];
    }
    TemplateNextRow(cells', TemplateHeaderRow);
  }

  /** The row of example question `i`, from row 8 on. */
  method WriteExample(cells: map<(int, int), string>, i: nat) returns (cells': map<(int, int), string>)
    requires i < |ExampleQuestions| && TemplateUpTo(cells, FirstQuestionRow + i, 1)
    ensures TemplateUpTo(cells', FirstQuestionRow + i + 1, 1)
  {
    cells' := cells;
    var row := FirstQuestionRow + i;
    for col := 1 to |ExampleQuestions[i]| + 1
      invariant TemplateUpTo(cells', row, col)
    {
      TemplateStep(cells', row, col);
      cells' := cells'[(row, col) := ExampleQuestions[i][col - 1]];
    }
    TemplateNextRow(cells', row);
  }

  // ---------------------------------------------------------------------
  // Importing the template

  /** The question created from example `i`: its text, order i + 1, and
      its four options numbered from 1 with the first one correct. */
  function ExampleDraft(i: nat): QuestionDraft
    requires i < |ExampleQuestions|
  {
    var q := ExampleQuestions[i];
    QuestionDraft(q[0], i + 1, [OptionDraft(q[1], true, 1), OptionDraft(q[2], false, 2),
                                OptionDraft(q[3], false, 3), OptionDraft(q[4], false, 4)])
  }

  /** Importing the template creates the example test with its three
      example questions, each with its first option correct. */
  lemma TemplateImports(ws: Sheet)
    requires ws.maxRow == FirstQuestionRow + |ExampleQuestions| - 1
    requires forall r, c :: Cell(ws, r, c) == TemplateCell(r, c)
    ensures AdminImportOf(ws) ==
      Imported(TestInfo("Example Test", "This is an example test description", 60, 70, Some("Software Engineer")),
               [ExampleDraft(0), ExampleDraft(1), ExampleDraft(2)])
  {
    TemplateInfoRead(ws);
    TemplateRowsRead(ws);
  }

  lemma TemplateRowsRead(ws: Sheet)
    requires forall r, c :: FirstQuestionRow <= r < FirstQuestionRow + 3 && 1 <= c <= 6 ==>
      Cell(ws, r, c) == TemplateCell(r, c)
    ensures AdminRows(ws, FirstQuestionRow, FirstQuestionRow + 3) == [ExampleDraft(0), ExampleDraft(1), ExampleDraft(2)]
  {
    ExampleRowRead(ws, 0, FirstQuestionRow);
    ExampleRowRead(ws, 1, FirstQuestionRow + 1);
    ExampleRowRead(ws, 2, FirstQuestionRow + 2);
    ThreeRowsRead(ws, ExampleDraft(0), ExampleDraft(1), ExampleDraft(2));
  }

  /** Three consecutive question rows from row 8 on become three questions
      numbered 1, 2 and 3. */
  lemma ThreeRowsRead(ws: Sheet, d0: QuestionDraft, d1: QuestionDraft, d2: QuestionDraft)
    requires d0.order == 1 && ReadAdminRow(ws, FirstQuestionRow) == QuestionRow(d0.text, d0.options)
    requires d1.order == 2 && ReadAdminRow(ws, FirstQuestionRow + 1) == QuestionRow(d1.text, d1.options)
    requires d2.order == 3 && ReadAdminRow(ws, FirstQuestionRow + 2) == QuestionRow(d2.text, d2.options)
    ensures AdminRows(ws, FirstQuestionRow, FirstQuestionRow + 3) == [d0, d1, d2]
  {
    AdminRowsEmpty(ws, FirstQuestionRow, FirstQuestionRow);
    AdminRowsStep(ws, FirstQuestionRow, FirstQuestionRow);
    AdminRowsStep(ws, FirstQuestionRow, FirstQuestionRow + 1);
    AdminRowsStep(ws, FirstQuestionRow, FirstQuestionRow + 2);
  }

  lemma TemplateInfoRead(ws: Sheet)
    requires forall r :: 1 <= r <= 5 ==> Cell(ws, r, 2) == TemplateCell(r, 2)
    ensures ReadTestInfo(ws) ==
      Some(TestInfo("Example Test", "This is an example test description", 60, 70, Some("Software Engineer")))
  {
    TemplateValueCells();
    InfoCellsRead(ws, TemplateCell(1, 2), TemplateCell(2, 2), TemplateCell(3, 2), 60, 70);
    PositionStripped();
  }

  lemma PositionStripped()
    ensures Strip("Software Engineer") == "Software Engineer"
  {
    var p := "Software Engineer";
    assert p[0] == 'S' && p[|p| - 1] == 'r';
    StripUnpadded(p);
  }

  lemma TemplateValueCells()
    ensures TemplateCell(1, 2) == "Example Test"
    ensures TemplateCell(2, 2) == "This is an example test description"
    ensures TemplateCell(3, 2) == "Software Engineer"
    ensures TemplateCell(4, 2) == IntToString(60) && TemplateCell(5, 2) == IntToString(70)
  {
  }

  /** Test fields written as the template writes them are read back. */
  lemma InfoCellsRead(ws: Sheet, title: string, description: string, position: string, limit: int, score: int)
    requires Cell(ws, 1, 2) == title && Cell(ws, 2, 2) == description && Cell(ws, 3, 2) == position
    requires Cell(ws, 4, 2) == IntToString(limit) && Cell(ws, 5, 2) == IntToString(score) && Truthy(position)
    ensures ReadTestInfo(ws) == Some(TestInfo(title, description, limit, score, Some(Strip(position))))
  {
    WrittenLimitsRead(ws, limit, score);
  }

  /** Row `r` holding example `i` is read as that example's question. */
  lemma ExampleRowRead(ws: Sheet, i: nat, r: int)
    requires i < |ExampleQuestions| && r == FirstQuestionRow + i
    requires forall c :: 1 <= c <= 6 ==> Cell(ws, r, c) == TemplateCell(r, c)
    ensures ReadAdminRow(ws, r) == QuestionRow(ExampleDraft(i).text, ExampleDraft(i).options)
  {
    var q := ExampleQuestions[i];
    ExampleTextNotHeaderLike(i);
    ExampleShape(i);
    forall c | 1 <= c <= 6 ensures Cell(ws, r, c) == q[c - 1] {
      ExampleCell(i, c);
    }
    FullRowRead(ws, r, q);
  }

  /** Every example has a text, four filled options and the answer 1. */
  lemma ExampleShape(i: nat)
    requires i < |ExampleQuestions|
    ensures var q := ExampleQuestions[i];
      |q| == 6 && Truthy(q[0]) && Truthy(q[1]) && Truthy(q[2]) && Truthy(q[3]) && Truthy(q[4])
      && q[5] == IntToString(1)
  {
  }

  lemma ExampleCell(i: nat, c: int)
    requires i < |ExampleQuestions| && 1 <= c <= 6
    ensures TemplateCell(FirstQuestionRow + i, c) == ExampleQuestions[i][c - 1]
  {
  }

  /** A row whose text does not look like a header, whose four option
      cells are filled and whose answer is 1 becomes a question with
      those four options, the first one correct. */
  lemma FullRowRead(ws: Sheet, r: int, q: seq<string>)
    requires |q| == 6 && forall c :: 1 <= c <= 6 ==> Cell(ws, r, c) == q[c - 1]
    requires Truthy(q[0]) && !LooksLikeHeader(q[0])
    requires Truthy(q[1]) && Truthy(q[2]) && Truthy(q[3]) && Truthy(q[4]) && q[5] == IntToString(1)
    ensures ReadAdminRow(ws, r) == QuestionRow(q[0], [OptionDraft(q[1], true, 1), OptionDraft(q[2], false, 2),
                                                      OptionDraft(q[3], false, 3), OptionDraft(q[4], false, 4)])
  {
    FourFilledOptions(ws, r, q[1], q[2], q[3], q[4]);
    AnswerOne();
    FirstOfFourCorrect(q[1], q[2], q[3], q[4]);
  }

  lemma FourFilledOptions(ws: Sheet, r: int, a: string, b: string, c: string, d: string)
    requires Cell(ws, r, 2) == a && Cell(ws, r, 3) == b && Cell(ws, r, 4) == c && Cell(ws, r, 5) == d
    requires Truthy(a) && Truthy(b) && Truthy(c) && Truthy(d)
    ensures OptionCells(ws, r, 6) == [a, b, c, d]
  {
    assert OptionCells(ws, r, 3) == [a];
    assert OptionCells(ws, r, 5) == [a, b, c];
  }

  lemma AnswerOne()
    ensures CorrectIndex(IntToString(1)) == Some(0)
  {
    IntToStringRoundTrip(1);
  }

  lemma FirstOfFourCorrect(a: string, b: string, c: string, d: string)
    ensures AdminOptions([a, b, c, d], Some(0)) ==
      [OptionDraft(a, true, 1), OptionDraft(b, false, 2), OptionDraft(c, false, 3), OptionDraft(d, false, 4)]
  {
  }

  lemma ExampleTextNotHeaderLike(i: nat)
    requires i < |ExampleQuestions|
    ensures !LooksLikeHeader(ExampleQuestions[i][0])
  {
    if i == 0 {
      assert ExampleQuestions[i][0] == "What is Python?";
      PythonNotHeaderLike();
    } else if i == 1 {
      assert ExampleQuestions[i][0] == "What is Django?";
      DjangoNotHeaderLike();
    } else {
      assert ExampleQuestions[i][0] == "What is REST API?";
      RestNotHeaderLike();
    }
  }

  lemma PythonNotHeaderLike()
    ensures !LooksLikeHeader("What is Python?")
  {
    PythonLacksOp();
    NotHeaderLike("What is Python?");
  }

  lemma PythonLacksOp()
    ensures LacksLowerPair("What is Python?", 'q', 'u', 0) && LacksLowerPair("What is Python?", 'o', 'p', 0)
  {
  }

  lemma DjangoNotHeaderLike()
    ensures !LooksLikeHeader("What is Django?")
  {
    DjangoLacksOp();
    NotHeaderLike("What is Django?");
  }

  lemma DjangoLacksOp()
    ensures LacksLowerPair("What is Django?", 'q', 'u', 0) && LacksLowerPair("What is Django?", 'o', 'p', 0)
  {
  }

  lemma RestNotHeaderLike()
    ensures !LooksLikeHeader("What is REST API?")
  {
    RestLacksQu();
    RestLacksOp();
    NotHeaderLike("What is REST API?");
  }

  lemma RestLacksQu()
    ensures LacksLowerPair("What is REST API?", 'q', 'u', 0)
  {
  }

  lemma RestLacksOp()
    ensures LacksLowerPair("What is REST API?", 'o', 'p', 0)
  {
  }
}
