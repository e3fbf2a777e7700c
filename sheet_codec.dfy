/** The question spreadsheet of the admin API (`export_questions` and
    `import_questions` in backend/api/views.py): the export writes the test
    information on rows 1-4, a header on row 6 and one row per question
    from row 7; the import looks for a header among rows 1-19 and reads
    every later row as a question. */
module SheetCodec {
  import opened Common
  import opened TestModels
  import opened Worksheet

  // ---------------------------------------------------------------------
  // Export

  const HeaderRow := 6
  const FirstDataRow := 7

  const Headers: seq<string> := ["Savol", "Variant 1", "Variant 2", "Variant 3", "Variant 4", "To'g'ri javob"]

  /** How many options a row shows: at most four. */
  function Shown(q: Question): nat {
    Min(4, |q.options|)
  }

  /** 1-based number of the first correct option among the first `m`; 0 if none. */
  function CorrectAmong(opts: seq<AnswerOption>, m: nat): (n: nat)
    requires m <= |opts|
    ensures n <= m
  {
    if m == 0 then 0
    else
      var c := CorrectAmong(opts, m - 1);
      if c > 0 then c else if opts[m - 1].isCorrect then m else 0
  }

  /** A non-zero result names a correct option with none correct before
      it; zero means none of the first `m` is correct. */
  lemma {:induction false} CorrectAmongFinds(opts: seq<AnswerOption>, m: nat)
    requires m <= |opts|
    ensures var n := CorrectAmong(opts, m);
      (n > 0 ==> opts[n - 1].isCorrect && forall j :: 0 <= j < n - 1 ==> !opts[j].isCorrect)
      && (n == 0 ==> forall j :: 0 <= j < m ==> !opts[j].isCorrect)
  {
    if m > 0 {
      CorrectAmongFinds(opts, m - 1);
    }
  }

  /** The "To'g'ri javob" cell: the number of the first correct option
      among the four shown, or empty when none of them is correct. */
  function CorrectCell(q: Question): string {
    var n := CorrectAmong(q.options, Shown(q));
    if n > 0 then IntToString(n) else ""
  }

  /** Rows 1-4: test id, title, description (empty when missing) and the
      number of questions, each after its label. */
  function InfoCells(t: Test): map<(int, int), string> {
    map[(1, 1) := "Test ID:", (1, 2) := IntToString(t.id),
        (2, 1) := "Test nomi:", (2, 2) := t.title,
        (3, 1) := "Tavsif:", (3, 2) := (if t.description.Some? then t.description.value else ""),
        (4, 1) := "Savollar soni:", (4, 2) := IntToString(|t.questions|)]
  }

  /** `base` with the first `k` header cells of row 6 written. */
  function HeaderOver(base: map<(int, int), string>, k: nat): map<(int, int), string>
    requires k <= |Headers|
  {
    if k == 0 then base else HeaderOver(base, k - 1)[(HeaderRow, k) := Headers[k - 1]]
  }

  /** `base` with the texts of the first `k` options written in columns 2.. of `row`. */
  function OptionsOver(base: map<(int, int), string>, opts: seq<AnswerOption>, row: int, k: nat)
    : map<(int, int), string>
    requires k <= |opts|
  {
    if k == 0 then base else OptionsOver(base, opts, row, k - 1)[(row, k + 1) := opts[k - 1].text]
  }

  /** `base` with the row of one question written. */
  function RowOver(base: map<(int, int), string>, q: Question, row: int): map<(int, int), string> {
    OptionsOver(base[(row, 1) := q.text], q.options, row, Shown(q))[(row, 6) := CorrectCell(q)]
  }

  /** `base` with the rows of `qs` written from `row0` on. */
  function DataOver(base: map<(int, int), string>, qs: seq<Question>, row0: int): map<(int, int), string> {
    if qs == [] then base
    else RowOver(DataOver(base, qs[..|qs| - 1], row0), qs[|qs| - 1], row0 + |qs| - 1)
  }

  /** The exported sheet of a test whose questions, in (order, id) order,
      are `t.questions`. */
  function ExportSheet(t: Test): Sheet {
    Sheet(DataOver(HeaderOver(InfoCells(t), |Headers|), t.questions, FirstDataRow),
          HeaderRow + |t.questions|)
  }

  method ExportQuestions(t: Test) returns (ws: Sheet)
    ensures ws == ExportSheet(t)
  {
    var cells := InfoCells(t);
    for col := 1 to |Headers| + 1
      invariant cells == HeaderOver(InfoCells(t), col - 1)
    {
      cells := cells[(HeaderRow, col) := Headers[col - 1]];
    }
    var base := cells;
    var row := FirstDataRow;
    for i := 0 to |t.questions|
      invariant row == FirstDataRow + i
      invariant cells == DataOver(base, t.questions[..i], FirstDataRow)
    {
      assert t.questions[..i + 1][..i] == t.questions[..i];
      cells := WriteQuestionRow(cells, t.questions[i], row);
      row := row + 1;
    }
    assert t.questions[..|t.questions|] == t.questions;
    ws := Sheet(cells, row - 1);
  }

  /** One question row: its text, its first four options and the number
      of the first correct one among them. */
  method WriteQuestionRow(cells: map<(int, int), string>, q: Question, row: int)
    returns (out: map<(int, int), string>)
    ensures out == RowOver(cells, q, row)
  {
    var m := Min(4, |q.options|);
    var correct := 0;
    var idx := 0;
    while idx < m
      invariant 0 <= idx <= m
      invariant correct == 0 && CorrectAmong(q.options, idx) == 0
    {
      if q.options[idx].isCorrect {
        correct := idx + 1;
        break;
      }
      idx := idx + 1;
    }
    assert correct == CorrectAmong(q.options, m) by {
      if correct > 0 {
        assert CorrectAmong(q.options, idx + 1) == idx + 1;
        CorrectAmongStable(q.options, idx + 1, m);
      }
    }
    var rowStart := cells[(row, 1) := q.text];
    out := rowStart;
    for k := 0 to m
      invariant out == OptionsOver(rowStart, q.options, row, k)
    {
      out := out[(row, k + 2) := q.options[k].text];
    }
    out := out[(row, 6) := if correct > 0 then IntToString(correct) else ""];
  }

  /** Once a correct option has been found, looking further does not move it. */
  lemma {:induction false} CorrectAmongStable(opts: seq<AnswerOption>, k: nat, m: nat)
    requires 0 < k <= m <= |opts| && CorrectAmong(opts, k) > 0
    ensures CorrectAmong(opts, m) == CorrectAmong(opts, k)
    decreases m - k
  {
    if k < m {
      CorrectAmongStable(opts, k, m - 1);
    }
  }

  // ---------------------------------------------------------------------
  // Import

  datatype ImportError =
    | NoOptions(row: int)                        // "Qator N: Variantlar topilmadi"
    | BadCorrect(row: int, optionCount: nat)     // "Qator N: To'g'ri javob noto'g'ri (1-K ...)"

  datatype ImportState = ImportState(drafts: seq<QuestionDraft>, errors: seq<ImportError>)

  /** The first data row: the row after the first of rows 1-19 whose first
      cell contains "Savol"; row 1 if there is none. */
  function HeaderFrom(ws: Sheet, r: int): (start: int)
    requires r >= 1
    ensures 1 <= start <= 20
    decreases 20 - r
  {
    if r >= 20 then 1
    else if MentionsQuestion(Cell(ws, r, 1)) then r + 1
    else HeaderFrom(ws, r + 1)
  }

  /** A non-empty first cell that contains "Savol". */
  predicate MentionsQuestion(v: string) {
    Truthy(v) && Contains(v, "Savol")
  }

  /** The search stops right below the first of the rows it looks at whose
      first cell mentions "Savol", and gives row 1 when there is none. */
  lemma {:induction false} HeaderFromFinds(ws: Sheet, r: int)
    requires r >= 1
    ensures var start := HeaderFrom(ws, r);
      && (start != 1 ==> r < start && MentionsQuestion(Cell(ws, start - 1, 1)))
      && forall k :: r <= k < (if start == 1 then 20 else start - 1) ==> !MentionsQuestion(Cell(ws, k, 1))
    decreases 20 - r
  {
    if r < 20 && !MentionsQuestion(Cell(ws, r, 1)) {
      HeaderFromFinds(ws, r + 1);
    }
  }

  function StartRow(ws: Sheet): int {
    HeaderFrom(ws, 1)
  }

  /** The stripped non-blank cells of columns 2 .. upTo - 1 of a row. */
  function RowOptions(ws: Sheet, row: int, upTo: int): (opts: seq<string>)
    ensures |opts| <= if upTo <= 2 then 0 else upTo - 2
    decreases upTo
  {
    if upTo <= 2 then []
    else
      var v := Cell(ws, row, upTo - 1);
      var prev := RowOptions(ws, row, upTo - 1);
      if IsBlank(v) then prev else prev + [Strip(v)]
  }

  /** Every option the importer keeps is stripped and non-empty. */
  lemma {:induction false} RowOptionsAreClean(ws: Sheet, row: int, upTo: int)
    ensures forall j :: 0 <= j < |RowOptions(ws, row, upTo)| ==> Clean(RowOptions(ws, row, upTo)[j])
    decreases upTo
  {
    if upTo > 2 {
      RowOptionsAreClean(ws, row, upTo - 1);
    }
  }

  /** A cell value as the importer keeps it: stripped and not empty. */
  predicate Clean(s: string) {
    s != [] && Unpadded(s)
  }

  /** A clean value is left as it is by stripping, hence is not blank. */
  lemma CleanIsStripped(s: string)
    requires Clean(s)
    ensures Strip(s) == s && !IsBlank(s)
  {
    StripUnpadded(s);
  }

  /** What one row turns into. */
  datatype RowOutcome = Skip | Failed(error: ImportError) | Parsed(text: string, options: seq<string>, correct: nat)

  function ParseRow(ws: Sheet, row: int): RowOutcome {
    Classify(row, Cell(ws, row, 1), RowOptions(ws, row, 6), Cell(ws, row, 6))
  }

  /** The decision for one row from its question cell, its options and its
      answer cell. */
  function Classify(row: int, text: string, opts: seq<string>, answer: string): RowOutcome {
    if IsBlank(text) then Skip
    else if |opts| == 0 then Failed(NoOptions(row))
    else
      var n := if Truthy(answer) then ParseInt(answer) else None;
      if n.None? || n.value < 1 || n.value > |opts| then Failed(BadCorrect(row, |opts|))
      else Parsed(Strip(text), opts, n.value)
  }

  /** A row is skipped exactly when its question cell is blank, and becomes
      a question exactly when it also has an option and its answer cell
      holds a whole number between 1 and the number of options; every other
      row is reported, as having no options if it has none. */
  lemma ParseRowCases(ws: Sheet, row: int)
    ensures ParseRow(ws, row).Skip? <==> IsBlank(Cell(ws, row, 1))
    ensures ParseRow(ws, row).Parsed? <==>
      !IsBlank(Cell(ws, row, 1)) && |RowOptions(ws, row, 6)| > 0 && Truthy(Cell(ws, row, 6)) &&
      ParseInt(Cell(ws, row, 6)).Some? && 1 <= ParseInt(Cell(ws, row, 6)).value <= |RowOptions(ws, row, 6)|
    ensures ParseRow(ws, row).Failed? ==>
      ParseRow(ws, row).error == (if |RowOptions(ws, row, 6)| == 0 then NoOptions(row)
                                  else BadCorrect(row, |RowOptions(ws, row, 6)|))
  {
  }

  /** What a parsed row carries: a stripped non-empty question text, one to
      four stripped non-empty options and a correct number among them. */
  lemma ParsedRowIsWellFormed(ws: Sheet, row: int)
    requires ParseRow(ws, row).Parsed?
    ensures var o := ParseRow(ws, row);
      Clean(o.text) && 1 <= |o.options| <= 4 && 1 <= o.correct <= |o.options|
      && forall j :: 0 <= j < |o.options| ==> Clean(o.options[j])
  {
    RowOptionsAreClean(ws, row, 6);
  }

  /** Option drafts for the parsed texts: numbered from 0, the one at
      1-based position `correct` marked correct. */
  function NumberedOptions(texts: seq<string>, correct: int): (os: seq<OptionDraft>)
    ensures |os| == |texts|
    ensures forall j :: 0 <= j < |texts| ==>
      os[j] == OptionDraft(texts[j], j + 1 == correct, j)
  {
    if texts == [] then []
    else NumberedOptions(texts[..|texts| - 1], correct)
         + [OptionDraft(texts[|texts| - 1], |texts| == correct, |texts| - 1)]
  }

  /** Processing one row: a parsed row becomes the next question, numbered
      by the questions imported before it; a failed row adds an error. */
  function Step(st: ImportState, row: RowOutcome): ImportState {
    match row
    case Skip => st
    case Failed(e) => st.(errors := st.errors + [e])
    case Parsed(text, opts, c) =>
      st.(drafts := st.drafts + [QuestionDraft(text, |st.drafts|, NumberedOptions(opts, c))])
  }

  /** The outcome of each row, as a function of the row number. */
  function RowParser(ws: Sheet): int -> RowOutcome {
    row => ParseRow(ws, row)
  }

  /** Rows `from` .. `to` - 1, in order, each read by `parse`. */
  function FoldRows(parse: int -> RowOutcome, from: int, to: int): ImportState
    decreases to - from
  {
    if to <= from then ImportState([], [])
    else Step(FoldRows(parse, from, to - 1), parse(to - 1))
  }

  function ImportRange(ws: Sheet, from: int, to: int): ImportState {
    FoldRows(RowParser(ws), from, to)
  }

  lemma ImportRangeStep(ws: Sheet, from: int, to: int)
    requires from <= to
    ensures ImportRange(ws, from, to + 1) == Step(ImportRange(ws, from, to), ParseRow(ws, to))
  {
  }

  lemma ImportRangeEmpty(ws: Sheet, from: int, to: int)
    requires to <= from
    ensures ImportRange(ws, from, to) == ImportState([], [])
  {
  }

  function Import(ws: Sheet): ImportState {
    ImportRange(ws, StartRow(ws), ws.maxRow + 1)
  }

  /** The import action, with the header search corrected to look for the
      column header itself (see `HeaderFromFixed`). */
  method ImportQuestions(ws: Sheet) returns (drafts: seq<QuestionDraft>, errors: seq<ImportError>)
    ensures ImportState(drafts, errors) == ImportFixed(ws)
  {
    var startRow := FindStartRow(ws);
    drafts, errors := ImportRows(ws, startRow);
  }

  /** The row loop: every row from `startRow` to the last one in use. */
  method ImportRows(ws: Sheet, startRow: int) returns (drafts: seq<QuestionDraft>, errors: seq<ImportError>)
    ensures ImportState(drafts, errors) == ImportRange(ws, startRow, ws.maxRow + 1)
  {
    drafts, errors := [], [];
    var row := startRow;
    while row <= ws.maxRow
      invariant startRow <= row
      invariant row <= ws.maxRow + 1 || row == startRow
      invariant ImportState(drafts, errors) == ImportRange(ws, startRow, row)
      decreases ws.maxRow - row
    {
      var o := ReadRow(ws, row);
      ImportRangeStep(ws, startRow, row);
      drafts, errors := Record(drafts, errors, o);
      row := row + 1;
    }
    if row != ws.maxRow + 1 {
      ImportRangeEmpty(ws, startRow, ws.maxRow + 1);
    }
  }

  /** Acting on one row's outcome: create the question or log the error. */
  method Record(drafts: seq<QuestionDraft>, errors: seq<ImportError>, o: RowOutcome)
    returns (drafts': seq<QuestionDraft>, errors': seq<ImportError>)
    ensures ImportState(drafts', errors') == Step(ImportState(drafts, errors), o)
  {
    drafts', errors' := drafts, errors;
    match o {
      case Skip =>
      case Failed(e) =>
        errors' := errors + [e];
      case Parsed(text, options, n) =>
        var os := NumberOptions(options, n);
        drafts' := drafts + [QuestionDraft(text, |drafts|, os)];
    }
  }

  /** The header search over rows 1-19, stopping at the column header. */
  method FindStartRow(ws: Sheet) returns (startRow: int)
    ensures startRow == StartRowFixed(ws)
  {
    startRow := 1;
    var r := 1;
    while r < 20
      invariant 1 <= r <= 20
      invariant HeaderFromFixed(ws, 1) == HeaderFromFixed(ws, r)
    {
      var v := Cell(ws, r, 1);
      if IsQuestionHeader(v) {
        startRow := r + 1;
        break;
      }
      r := r + 1;
    }
  }

  /** Reading one row: skip it, report it, or take its question. */
  method ReadRow(ws: Sheet, row: int) returns (o: RowOutcome)
    ensures o == ParseRow(ws, row)
  {
    var text := Cell(ws, row, 1);
    if IsBlank(text) {
      return Skip;
    }
    var options: seq<string> := [];
    for col := 2 to 6
      invariant options == RowOptions(ws, row, col)
    {
      var v := Cell(ws, row, col);
      if !IsBlank(v) {
        options := options + [Strip(v)];
      }
    }
    if |options| == 0 {
      return Failed(NoOptions(row));
    }
    var c := Cell(ws, row, 6);
    var n: Option<int> := None;
    if Truthy(c) {
      n := ParseInt(c);
    }
    if n.None? || n.value < 1 || n.value > |options| {
      return Failed(BadCorrect(row, |options|));
    }
    o := Parsed(Strip(text), options, n.value);
  }

  /** The answer options of a parsed row, in column order. */
  method NumberOptions(options: seq<string>, correct: int) returns (os: seq<OptionDraft>)
    ensures os == NumberedOptions(options, correct)
  {
    os := [];
    for idx := 0 to |options|
      invariant os == NumberedOptions(options[..idx], correct)
    {
      assert options[..idx + 1][..idx] == options[..idx];
      os := os + [OptionDraft(options[idx], idx + 1 == correct, idx)];
    }
    assert options[..|options|] == options;
  }

  // ---------------------------------------------------------------------
  // What an import produces

  /** Exactly one option is marked correct. */
  predicate OneCorrect(os: seq<OptionDraft>) {
    exists p :: 0 <= p < |os| && os[p].isCorrect && forall j :: 0 <= j < |os| && os[j].isCorrect ==> j == p
  }

  /** The question at position `i` of the import: numbered `i`, a clean
      text, one to four clean options numbered from 0, one of them correct. */
  predicate WellFormedDraft(d: QuestionDraft, i: int) {
    d.order == i && Clean(d.text) && 1 <= |d.options| <= 4 && OneCorrect(d.options)
    && forall j :: 0 <= j < |d.options| ==> Clean(d.options[j].text) && d.options[j].order == j
  }

  lemma {:induction false} ImportedDraftsAreWellFormed(ws: Sheet, lo: int, hi: int)
    ensures forall i :: 0 <= i < |ImportRange(ws, lo, hi).drafts| ==>
      WellFormedDraft(ImportRange(ws, lo, hi).drafts[i], i)
    decreases hi - lo
  {
    if lo < hi {
      ImportedDraftsAreWellFormed(ws, lo, hi - 1);
      ImportRangeStep(ws, lo, hi - 1);
      if ParseRow(ws, hi - 1).Parsed? {
        ParsedRowIsWellFormed(ws, hi - 1);
      }
      StepKeepsWellFormed(ImportRange(ws, lo, hi - 1), ParseRow(ws, hi - 1));
    }
  }

  /** A step keeps every imported question well formed, provided a parsed
      row has a clean text and one to four clean options with the answer
      among them. */
  lemma StepKeepsWellFormed(st: ImportState, o: RowOutcome)
    requires forall i :: 0 <= i < |st.drafts| ==> WellFormedDraft(st.drafts[i], i)
    requires o.Parsed? ==>
      Clean(o.text) && 1 <= |o.options| <= 4 && 1 <= o.correct <= |o.options|
      && forall j :: 0 <= j < |o.options| ==> Clean(o.options[j])
    ensures forall i :: 0 <= i < |Step(st, o).drafts| ==> WellFormedDraft(Step(st, o).drafts[i], i)
  {
    if o.Parsed? {
      var os := NumberedOptions(o.options, o.correct);
      var d := QuestionDraft(o.text, |st.drafts|, os);
      assert os[o.correct - 1].isCorrect;
      assert OneCorrect(os);
      assert WellFormedDraft(d, |st.drafts|);
      assert Step(st, o).drafts == st.drafts + [d];
    }
  }

  lemma ImportedQuestionsAreWellFormed(ws: Sheet)
    ensures forall i :: 0 <= i < |ImportFixed(ws).drafts| ==> WellFormedDraft(ImportFixed(ws).drafts[i], i)
    ensures forall i :: 0 <= i < |Import(ws).drafts| ==> WellFormedDraft(Import(ws).drafts[i], i)
  {
    ImportedDraftsAreWellFormed(ws, StartRowFixed(ws), ws.maxRow + 1);
    ImportedDraftsAreWellFormed(ws, StartRow(ws), ws.maxRow + 1);
  }

  // ---------------------------------------------------------------------
  // Reading back an export

  /** What the row of question `q` holds in column `c`, if anything. */
  function RowValue(q: Question, c: int): Option<string> {
    if c == 1 then Some(q.text)
    else if c == 6 then Some(CorrectCell(q))
    else if 2 <= c <= Shown(q) + 1 then Some(q.options[c - 2].text)
    else None
  }

  lemma {:induction false} OptionsOverGet(base: map<(int, int), string>, opts: seq<AnswerOption>, row: int,
                                          k: nat, r: int, c: int)
    requires k <= |opts|
    ensures Get(OptionsOver(base, opts, row, k), r, c) ==
      if r == row && 2 <= c <= k + 1 then opts[c - 2].text else Get(base, r, c)
  {
    if k > 0 {
      OptionsOverGet(base, opts, row, k - 1, r, c);
    }
  }

  lemma RowOverGet(base: map<(int, int), string>, q: Question, row: int, r: int, c: int)
    ensures Get(RowOver(base, q, row), r, c) ==
      if r == row && RowValue(q, c).Some? then RowValue(q, c).value else Get(base, r, c)
  {
    OptionsOverGet(base[(row, 1) := q.text], q.options, row, Shown(q), r, c);
  }

  /** Each row from `row0` on holds what its question puts there; every
      other cell is as in `base`. */
  lemma {:induction false} DataOverGet(base: map<(int, int), string>, qs: seq<Question>, row0: int, r: int, c: int)
    ensures Get(DataOver(base, qs, row0), r, c) ==
      if row0 <= r < row0 + |qs| && RowValue(qs[r - row0], c).Some? then RowValue(qs[r - row0], c).value
      else Get(base, r, c)
  {
    if qs != [] {
      var last := |qs| - 1;
      var init := qs[..last];
      DataOverGet(base, init, row0, r, c);
      RowOverGet(DataOver(base, init, row0), qs[last], row0 + last, r, c);
      if row0 <= r < row0 + last {
        assert init[r - row0] == qs[r - row0];
      }
    }
  }

  lemma {:induction false} HeaderOverGet(base: map<(int, int), string>, k: nat, r: int, c: int)
    requires k <= |Headers|
    ensures Get(HeaderOver(base, k), r, c) ==
      if r == HeaderRow && 1 <= c <= k then Headers[c - 1] else Get(base, r, c)
  {
    if k > 0 {
      HeaderOverGet(base, k - 1, r, c);
    }
  }

  /** Every cell of the exported sheet: a question's row from row 7, the
      header on row 6, the information block on rows 1-4, nothing else. */
  lemma ExportCell(t: Test, r: int, c: int)
    ensures Cell(ExportSheet(t), r, c) ==
      if FirstDataRow <= r < FirstDataRow + |t.questions| && RowValue(t.questions[r - FirstDataRow], c).Some? then
        RowValue(t.questions[r - FirstDataRow], c).value
      else if r == HeaderRow && 1 <= c <= 6 then Headers[c - 1]
      else Get(InfoCells(t), r, c)
  {
    var base := HeaderOver(InfoCells(t), |Headers|);
    DataOverGet(base, t.questions, FirstDataRow, r, c);
    HeaderOverGet(InfoCells(t), |Headers|, r, c);
  }

  // ---------------------------------------------------------------------
  // Round trip

  /** A question the export writes out in full: a clean text, one to four
      clean options and exactly one correct option. */
  predicate Exportable(q: Question) {
    Clean(q.text) && 1 <= |q.options| <= 4
    && (forall j :: 0 <= j < |q.options| ==> Clean(q.options[j].text))
    && exists p :: 0 <= p < |q.options| && q.options[p].isCorrect
                   && forall j :: 0 <= j < |q.options| && q.options[j].isCorrect ==> j == p
  }

  function OptionTexts(os: seq<AnswerOption>): (ts: seq<string>)
    ensures |ts| == |os| && forall j :: 0 <= j < |os| ==> ts[j] == os[j].text
  {
    if os == [] then [] else OptionTexts(os[..|os| - 1]) + [os[|os| - 1].text]
  }

  function OptionDraftsOf(os: seq<AnswerOption>): (ds: seq<OptionDraft>)
    ensures |ds| == |os| && forall j :: 0 <= j < |os| ==> ds[j] == OptionDraft(os[j].text, os[j].isCorrect, j)
  {
    if os == [] then []
    else OptionDraftsOf(os[..|os| - 1]) + [OptionDraft(os[|os| - 1].text, os[|os| - 1].isCorrect, |os| - 1)]
  }

  /** The draft that recreates question `q` at position `i`. */
  function DraftOf(q: Question, i: int): QuestionDraft {
    QuestionDraft(q.text, i, OptionDraftsOf(q.options))
  }

  function Drafts(qs: seq<Question>): (ds: seq<QuestionDraft>)
    ensures |ds| == |qs| && forall i :: 0 <= i < |qs| ==> ds[i] == DraftOf(qs[i], i)
  {
    if qs == [] then [] else Drafts(qs[..|qs| - 1]) + [DraftOf(qs[|qs| - 1], |qs| - 1)]
  }

  /** Columns 2-5 of row `r` hold the texts of `os`, then nothing. */
  predicate OptionCellsHold(ws: Sheet, r: int, os: seq<AnswerOption>) {
    forall c :: 2 <= c <= 5 ==> Cell(ws, r, c) == (if c - 2 < |os| then os[c - 2].text else "")
  }

  /** Row `r` of `ws` holds what the export writes for `q`. */
  predicate RowHolds(ws: Sheet, r: int, q: Question) {
    Cell(ws, r, 1) == q.text && Cell(ws, r, 6) == CorrectCell(q) && OptionCellsHold(ws, r, q.options)
  }

  lemma ExportRowHolds(t: Test, i: nat)
    requires i < |t.questions| && |t.questions[i].options| <= 4
    ensures RowHolds(ExportSheet(t), FirstDataRow + i, t.questions[i])
  {
    var r := FirstDataRow + i;
    var q := t.questions[i];
    ExportCell(t, r, 1);
    ExportCell(t, r, 6);
    forall c | 2 <= c <= 5
      ensures Cell(ExportSheet(t), r, c) == (if c - 2 < |q.options| then q.options[c - 2].text else "")
    {
      ExportCell(t, r, c);
    }
  }

  /** Columns 2 .. k - 1 of a question's row read back as its option texts. */
  lemma OptionTextsSnoc(os: seq<AnswerOption>, m: nat)
    requires m < |os|
    ensures OptionTexts(os[..m + 1]) == OptionTexts(os[..m]) + [os[m].text]
  {
    assert os[..m + 1][..m] == os[..m];
  }

  lemma {:induction false} RowOptionsReadBack(ws: Sheet, r: int, os: seq<AnswerOption>, k: int)
    requires OptionCellsHold(ws, r, os) && |os| <= 4 && 2 <= k <= 6
    requires forall j :: 0 <= j < |os| ==> Clean(os[j].text)
    ensures RowOptions(ws, r, k) == OptionTexts(os[..Min(k - 2, |os|)])
  {
    if k > 2 {
      RowOptionsReadBack(ws, r, os, k - 1);
      var c := k - 1;
      var v := Cell(ws, r, c);
      var prev := RowOptions(ws, r, c);
      if c - 2 < |os| {
        assert v == os[c - 2].text;
        CleanIsStripped(v);
        OptionTextsSnoc(os, c - 2);
      } else {
        assert v == "" && IsBlank(v);
        assert RowOptions(ws, r, k) == prev;
      }
    }
  }

  /** The answer cell of an exportable question holds the 1-based number
      of its correct option. */
  lemma CorrectCellOfExportable(q: Question, p: nat)
    requires Exportable(q) && p < |q.options| && q.options[p].isCorrect
    ensures CorrectCell(q) == IntToString(p + 1)
  {
    CorrectAmongFinds(q.options, Shown(q));
  }

  /** Row outcome `o` recreates question `q`: it is parsed, with `q`'s text,
      and numbering its options gives `q`'s option drafts. */
  predicate ReadsBack(o: RowOutcome, q: Question) {
    o.Parsed? && o.text == q.text && NumberedOptions(o.options, o.correct) == OptionDraftsOf(q.options)
  }

  lemma StepReadsBack(st: ImportState, o: RowOutcome, q: Question)
    requires ReadsBack(o, q)
    ensures Step(st, o) == ImportState(st.drafts + [DraftOf(q, |st.drafts|)], st.errors)
  {
  }

  /** A row that holds question `q` reads back as `q`. */
  lemma RowReadsBack(ws: Sheet, r: int, q: Question)
    requires RowHolds(ws, r, q) && Exportable(q)
    ensures ReadsBack(ParseRow(ws, r), q)
  {
    var os := q.options;
    var p :| 0 <= p < |os| && os[p].isCorrect && forall j :: 0 <= j < |os| && os[j].isCorrect ==> j == p;
    CorrectCellOfExportable(q, p);
    RowParsesBack(ws, r, q.text, os, p);
    NumberedOptionsOfTexts(os, p);
  }

  /** Numbering the option texts with the single correct one at `p`
      recreates the options' drafts. */
  lemma NumberedOptionsOfTexts(os: seq<AnswerOption>, p: nat)
    requires p < |os| && forall j :: 0 <= j < |os| ==> (os[j].isCorrect <==> j == p)
    ensures NumberedOptions(OptionTexts(os), p + 1) == OptionDraftsOf(os)
  {
    var ns := NumberedOptions(OptionTexts(os), p + 1);
    forall j | 0 <= j < |os| ensures ns[j] == OptionDraftsOf(os)[j] {
      assert os[j].isCorrect <==> j == p;
    }
  }

  /** A row with a clean question text, one to four clean options and the
      number `p + 1` in its answer cell parses into exactly those. */
  lemma RowParsesBack(ws: Sheet, r: int, text: string, os: seq<AnswerOption>, p: nat)
    requires Cell(ws, r, 1) == text && Clean(text)
    requires OptionCellsHold(ws, r, os) && 1 <= |os| <= 4 && p < |os|
    requires forall j :: 0 <= j < |os| ==> Clean(os[j].text)
    requires Cell(ws, r, 6) == IntToString(p + 1)
    ensures ParseRow(ws, r) == Parsed(text, OptionTexts(os), p + 1)
  {
    RowOptionsReadBack(ws, r, os, 6);
    assert os[..Min(4, |os|)] == os;
    var opts := RowOptions(ws, r, 6);
    assert opts == OptionTexts(os);
    IntToStringRoundTrip(p + 1);
    ClassifyParsed(r, text, opts, IntToString(p + 1), p + 1);
  }

  /** A clean question text with options and an in-range answer number is
      accepted as it stands. */
  lemma ClassifyParsed(row: int, text: string, opts: seq<string>, answer: string, n: int)
    requires Clean(text) && |opts| > 0
    requires ParseInt(answer) == Some(n) && 1 <= n <= |opts|
    ensures Classify(row, text, opts, answer) == Parsed(text, opts, n)
  {
    CleanIsStripped(text);
  }

  lemma PrefixOfPrefix(qs: seq<Question>, n: nat, m: nat)
    requires m <= n <= |qs|
    ensures qs[..n][..m] == qs[..m]
  {
  }

  /** The rows from `row0` on read back as `qs`, one question per row. */
  predicate RowsReadBack(parse: int -> RowOutcome, qs: seq<Question>, row0: int) {
    qs == [] || (RowsReadBack(parse, qs[..|qs| - 1], row0) && ReadsBack(parse(row0 + |qs| - 1), qs[|qs| - 1]))
  }

  /** Once the rows before `row0` have been read, rows that read back as
      `qs` add the drafts of `qs`, in order. */
  lemma {:induction false} FoldReadsBack(parse: int -> RowOutcome, qs: seq<Question>, start: int, row0: int,
                                         errs: seq<ImportError>)
    requires start <= row0 && RowsReadBack(parse, qs, row0)
    requires FoldRows(parse, start, row0) == ImportState([], errs)
    ensures FoldRows(parse, start, row0 + |qs|) == ImportState(Drafts(qs), errs)
  {
    if qs != [] {
      var i := |qs| - 1;
      FoldReadsBack(parse, qs[..i], start, row0, errs);
      StepReadsBack(FoldRows(parse, start, row0 + i), parse(row0 + i), qs[i]);
    }
  }

  /** The rows of an export from the first question row on read back as the
      exported questions. */
  lemma {:induction false} ExportReadsBack(t: Test, n: nat)
    requires forall i :: 0 <= i < |t.questions| ==> Exportable(t.questions[i])
    requires n <= |t.questions|
    ensures RowsReadBack(RowParser(ExportSheet(t)), t.questions[..n], FirstDataRow)
  {
    if n > 0 {
      var qs := t.questions;
      ExportReadsBack(t, n - 1);
      ExportRowHolds(t, n - 1);
      RowReadsBack(ExportSheet(t), FirstDataRow + n - 1, qs[n - 1]);
      PrefixOfPrefix(qs, n, n - 1);
    }
  }

  /** Every question row of an export reads back its question. */
  lemma ExportRowsImport(t: Test, start: int, errs: seq<ImportError>)
    requires forall i :: 0 <= i < |t.questions| ==> Exportable(t.questions[i])
    requires start <= FirstDataRow
    requires ImportRange(ExportSheet(t), start, FirstDataRow) == ImportState([], errs)
    ensures ImportRange(ExportSheet(t), start, ExportSheet(t).maxRow + 1) == ImportState(Drafts(t.questions), errs)
  {
    var qs := t.questions;
    ExportReadsBack(t, |qs|);
    assert qs[..|qs|] == qs;
    FoldReadsBack(RowParser(ExportSheet(t)), qs, start, FirstDataRow, errs);
  }

  // ---------------------------------------------------------------------
  // Re-importing an export

  /** The header search stops at the "Savollar soni:" label of row 4, the
      first cell of column 1 that contains "Savol", so an import of an
      export starts at row 5. */
  lemma ExportStartRow(t: Test)
    ensures StartRow(ExportSheet(t)) == 5
  {
    ExportCell(t, 1, 1);
    ExportCell(t, 2, 1);
    ExportCell(t, 3, 1);
    ExportCell(t, 4, 1);
    InfoLabelsStart(ExportSheet(t));
  }

  /** Below the four labels of an export, the search stops at the fourth. */
  lemma InfoLabelsStart(ws: Sheet)
    requires Cell(ws, 1, 1) == "Test ID:" && Cell(ws, 2, 1) == "Test nomi:"
    requires Cell(ws, 3, 1) == "Tavsif:" && Cell(ws, 4, 1) == "Savollar soni:"
    ensures HeaderFrom(ws, 1) == 5
  {
    MissingFirstChar("Test ID:", "Savol");
    MissingFirstChar("Test nomi:", "Savol");
    MissingFirstChar("Tavsif:", "Savol");
    ContainsAt("Savollar soni:", "Savol", 0);
    assert HeaderFrom(ws, 4) == 5;
    assert HeaderFrom(ws, 2) == HeaderFrom(ws, 3) == 5;
  }

  /** Row 5 of an export is empty and is skipped. */
  lemma ExportRowFiveSkipped(t: Test)
    ensures ParseRow(ExportSheet(t), 5) == Skip
  {
    ExportCell(t, 5, 1);
    BlankRowSkipped(ExportSheet(t), 5);
  }

  lemma BlankRowSkipped(ws: Sheet, r: int)
    requires Cell(ws, r, 1) == ""
    ensures ParseRow(ws, r) == Skip
  {
  }

  /** The column headers of row 6 read as a question with four options
      whose answer cell holds no number. */
  lemma ExportHeaderRowFails(t: Test)
    ensures ParseRow(ExportSheet(t), HeaderRow) == Failed(BadCorrect(HeaderRow, 4))
  {
    forall c | 1 <= c <= 6 ensures Cell(ExportSheet(t), HeaderRow, c) == Headers[c - 1] {
      ExportCell(t, HeaderRow, c);
    }
    HeaderCellsFail(ExportSheet(t), HeaderRow);
  }

  /** Any row holding the column headers is reported as a row with four
      options and no valid answer number. */
  lemma HeaderCellsFail(ws: Sheet, r: int)
    requires forall c :: 1 <= c <= 6 ==> Cell(ws, r, c) == Headers[c - 1]
    ensures ParseRow(ws, r) == Failed(BadCorrect(r, 4))
  {
    assert Cell(ws, r, 1) == Headers[0] && Cell(ws, r, 6) == Headers[5];
    assert Cell(ws, r, 2) == Headers[1] && Cell(ws, r, 3) == Headers[2];
    assert Cell(ws, r, 4) == Headers[3] && Cell(ws, r, 5) == Headers[4];
    OptionHeadersClean();
    FourOptionsRead(ws, r, Headers[1], Headers[2], Headers[3], Headers[4]);
    QuestionHeaderNotBlank();
    AnswerHeaderIsNoNumber();
    ClassifyNoNumber(r, Headers[0], RowOptions(ws, r, 6), Headers[5]);
  }

  lemma QuestionHeaderNotBlank()
    ensures !IsBlank(Headers[0])
  {
    assert !IsSpace(Headers[0][0]);
  }

  /** A row with a question text and options whose answer cell is not a
      number is reported with its option count. */
  lemma ClassifyNoNumber(row: int, text: string, opts: seq<string>, answer: string)
    requires !IsBlank(text) && |opts| > 0 && ParseInt(answer) == None
    ensures Classify(row, text, opts, answer) == Failed(BadCorrect(row, |opts|))
  {
  }

  /** Four clean option cells read back as those four options. */
  lemma FourOptionsRead(ws: Sheet, r: int, a: string, b: string, c: string, d: string)
    requires Cell(ws, r, 2) == a && Cell(ws, r, 3) == b && Cell(ws, r, 4) == c && Cell(ws, r, 5) == d
    requires Clean(a) && Clean(b) && Clean(c) && Clean(d)
    ensures RowOptions(ws, r, 6) == [a, b, c, d]
  {
    CleanOptionRead(ws, r, 2, a);
    assert RowOptions(ws, r, 3) == [a];
    CleanOptionRead(ws, r, 3, b);
    CleanOptionRead(ws, r, 4, c);
    assert RowOptions(ws, r, 5) == [a, b, c];
    CleanOptionRead(ws, r, 5, d);
  }

  /** The option headers are clean. */
  lemma OptionHeadersClean()
    ensures Clean(Headers[1]) && Clean(Headers[2]) && Clean(Headers[3]) && Clean(Headers[4])
  {
  }

  /** A clean option cell adds itself, unchanged, to the options before it. */
  lemma CleanOptionRead(ws: Sheet, r: int, c: int, v: string)
    requires c >= 2 && Cell(ws, r, c) == v && Clean(v)
    ensures RowOptions(ws, r, c + 1) == RowOptions(ws, r, c) + [v]
  {
    CleanIsStripped(v);
  }

  lemma AnswerHeaderIsNoNumber()
    ensures ParseInt(Headers[5]) == None
  {
    CleanIsStripped("To'g'ri javob");
    assert !IsDigit("To'g'ri javob"[0]);
  }

  /** Rows 5 and 6 of an export add no question and one error. */
  lemma ExportHeaderRowsImport(t: Test)
    ensures ImportRange(ExportSheet(t), 5, FirstDataRow) == ImportState([], [BadCorrect(HeaderRow, 4)])
  {
    var ws := ExportSheet(t);
    ImportRangeEmpty(ws, 5, 5);
    ImportRangeStep(ws, 5, 5);
    ImportRangeStep(ws, 5, 6);
    ExportRowFiveSkipped(t);
    ExportHeaderRowFails(t);
  }

  /** As written, importing an export of exportable questions recreates
      every question in order, and also reports the column header row as a
      row whose answer is not a number from 1 to 4. */
  lemma ExportImportRoundTrip(t: Test)
    requires forall i :: 0 <= i < |t.questions| ==> Exportable(t.questions[i])
    ensures Import(ExportSheet(t)) == ImportState(Drafts(t.questions), [BadCorrect(HeaderRow, 4)])
  {
    ExportStartRow(t);
    ExportHeaderRowsImport(t);
    ExportRowsImport(t, 5, [BadCorrect(HeaderRow, 4)]);
  }

  /** The first cell of the column header row. */
  predicate IsQuestionHeader(v: string) {
    v == Headers[0]
  }

  /** The header search as intended: the first of rows 1-19 whose first
      cell is the column header "Savol" itself. */
  function HeaderFromFixed(ws: Sheet, r: int): (start: int)
    requires r >= 1
    ensures 1 <= start <= 20
    decreases 20 - r
  {
    if r >= 20 then 1
    else if IsQuestionHeader(Cell(ws, r, 1)) then r + 1
    else HeaderFromFixed(ws, r + 1)
  }

  /** The intended search stops right below the first of the rows it looks
      at whose first cell is "Savol", and gives row 1 when there is none. */
  lemma {:induction false} HeaderFromFixedFinds(ws: Sheet, r: int)
    requires r >= 1
    ensures var start := HeaderFromFixed(ws, r);
      && (start != 1 ==> r < start && IsQuestionHeader(Cell(ws, start - 1, 1)))
      && forall k :: r <= k < (if start == 1 then 20 else start - 1) ==> !IsQuestionHeader(Cell(ws, k, 1))
    decreases 20 - r
  {
    if r < 20 && !IsQuestionHeader(Cell(ws, r, 1)) {
      HeaderFromFixedFinds(ws, r + 1);
    }
  }

  function StartRowFixed(ws: Sheet): int {
    HeaderFromFixed(ws, 1)
  }

  /** The import with the intended header search. */
  function ImportFixed(ws: Sheet): ImportState {
    ImportRange(ws, StartRowFixed(ws), ws.maxRow + 1)
  }

  /** With the intended header search an import of an export starts right
      below the column headers. */
  lemma ExportStartRowFixed(t: Test)
    ensures StartRowFixed(ExportSheet(t)) == FirstDataRow
  {
    var ws := ExportSheet(t);
    ExportCell(t, 1, 1);
    ExportCell(t, 2, 1);
    ExportCell(t, 3, 1);
    ExportCell(t, 4, 1);
    ExportCell(t, 5, 1);
    ExportCell(t, HeaderRow, 1);
    assert HeaderFromFixed(ws, 6) == 7;
    assert HeaderFromFixed(ws, 4) == HeaderFromFixed(ws, 5) == 7;
    assert HeaderFromFixed(ws, 2) == HeaderFromFixed(ws, 3) == 7;
  }

  /** With the intended header search, importing an export of exportable
      questions recreates every question in order and reports nothing. */
  lemma FixedExportImportRoundTrip(t: Test)
    requires forall i :: 0 <= i < |t.questions| ==> Exportable(t.questions[i])
    ensures ImportFixed(ExportSheet(t)) == ImportState(Drafts(t.questions), [])
  {
    ExportStartRowFixed(t);
    ImportRangeEmpty(ExportSheet(t), FirstDataRow, FirstDataRow);
    ExportRowsImport(t, FirstDataRow, []);
  }
}
