# hr_bot in Dafny

hr_bot is a recruiting system. Candidates register through a Telegram bot,
upload a CV and take multiple-choice tests. They take the tests either in a
web app or as a quiz inside the chat. A Django backend stores tests,
questions, attempts and answers, and it enforces the attempt rules:

- attempt limits for trial and regular runs;
- resuming an attempt that is still open;
- expiry after the time limit;
- blocking a candidate who leaves the test page too often.

The backend scores submissions and imports and exports questions as
spreadsheets. It also broadcasts HTML notifications to Telegram users.
Recruiters browse CVs and results in a dashboard.

This project models the core of that system and proves properties of the
model:

- **Tests and results** (`TestModels`): the records, their defaults, the pass
  rule and answer uniqueness.
- **Question selection** (`QuestionSelection`): a random sample of the
  right size, then shuffled.
- **Scoring** (`Serializers`): graded submissions and the truncated
  percentage, plus the open-position lookup at registration.
- **Attempt ledger** (`AttemptLedger`): the checks and state changes behind
  listing questions, starting a test, reporting a page leave, blocking a
  user and submitting answers. A class holds one candidate's results for
  one test.
- **Question sheets** (`SheetCodec`, `AdminImport`, `Worksheet`): the export
  and import of questions as a worksheet, and the admin's own looser
  importer with its downloadable template.
- **Notifications** (`TelegramText`, `Notifications`): the HTML-to-Telegram
  text converter, the 4000-character cut, the plain-text retry and the
  broadcast counters.
- **Web app** (`TestPage`, `CVUpload`): the test page's answers, navigation,
  countdown and single submission, and the CV upload page's file checks.
- **Dashboard** (`Pagination`, `CVSearch`): the page-number window and the
  CV search filter.
- **Bot** (`Registration`, `QuizHandlers`): the registration conversation
  with its list normalisation, and the chat quiz's progression.

Randomness enters as oracle sequences. The properties hold for every value
of them. The clock is an integer number of seconds passed in by the caller.
Every HTTP reply, database answer and Telegram reply is a parameter.

Two behaviours of the code that the model keeps as written:

- A second answer to the same question in one submission is inserted as a
  new row (backend/api/serializers.py:190-197). The uniqueness constraint on
  result and question (backend/tests/models.py:105) refuses it, so the whole
  submission fails (`Serializers.RepeatedQuestionFails`).
- A submitted result is stored with its completion flag unset
  (backend/api/serializers.py:169-175), and `start_test` resumes the newest
  incomplete result (backend/api/views.py:531-552). So a later start within
  the time limit resumes a result that was already submitted
  (`AttemptLedger.SubmittedResultIsResumed`).

## Model

| member | source | states |
|---|---|---|
| TestModels.NewTest | backend/tests/models.py:14-24 | A new test has a 60-minute limit, a 60% pass mark and mode "both". It has no random sample, 10 trial questions and 2 attempts, shows answers immediately and is active. |
| TestModels.NewResult | backend/tests/models.py:73-80 | A new result is attempt 1, not completed, with no completion time and not a trial. |
| TestModels.PassedIsMonotone | backend/tests/models.py:90-92 | A passed result stays passed when its score rises. |
| TestModels.QuestionOrderIsStrictTotal | backend/tests/models.py:47 | Ordering questions by (order, id) is irreflexive and transitive, and it is total on distinct ids. |
| TestModels.StoreKeepsUnique | backend/tests/models.py:105 | Storing an answer the uniqueness constraint admits keeps at most one answer per (result, question). |
| QuestionSelection.Sample | backend/api/views.py:437-442 | Every random oracle gives exactly k questions, drawn without replacement from the pool. |
| QuestionSelection.Shuffle | backend/api/views.py:446 | Shuffling the array in place leaves a permutation of its contents. |
| QuestionSelection.Select | backend/api/views.py:430-446 | A sample is drawn only from a pool larger than the count, so an oversize count never fails. Selection fails exactly when `SampleFails` holds: a trial run with a negative trial count, which `random.sample` rejects. Otherwise it returns the count the mode asks for (trial count, random count, or all), drawn from the test's own questions. |
| QuestionSelection.SubPoolKeepsDistinctIds | backend/api/views.py:430-446 | Questions selected from a pool with distinct ids have distinct ids. |
| QuestionSelection.DefaultCounts | backend/api/views.py:433-442 | With the defaults, a regular run shows every question, a trial run shows min(10, n), and a trial sample never fails. |
| Serializers.FindQuestion | backend/api/serializers.py:183 | The lookup finds a question of the test with the submitted id, or reports that none has it. |
| Serializers.FindOption | backend/api/serializers.py:184 | The lookup finds an option of that question with the submitted id, or reports that none has it. |
| Serializers.AcceptOne | backend/api/serializers.py:182-197 | One submitted pair yields at most one stored answer. |
| Serializers.CountCorrect | backend/api/serializers.py:186-188 | The correct count never exceeds the number of answers. |
| Serializers.GradeBatch | backend/api/serializers.py:177-197 | The loop over the submission computes the graded outcome defined by `Grade`. |
| Serializers.UnresolvedEntryIsSkipped | backend/api/serializers.py:182-197 | A pair naming an unknown question or option changes nothing in the outcome. |
| Serializers.RepeatedQuestionFails | backend/api/serializers.py:190-197 | Two resolvable answers to one question make the submission fail. |
| Serializers.DuplicatePersists | backend/api/serializers.py:178-197 | Once a prefix of the submission has a duplicate, the whole submission fails. |
| Serializers.AcceptedAreResolved | backend/api/serializers.py:178-197 | Each stored answer belongs to this result and names an option of a question of this test. Its correctness is copied from that option. |
| Serializers.CorrectAtMostTotal | backend/api/serializers.py:165 | On success, correct ≤ stored answers ≤ the test's question count. |
| Serializers.ScoreBounds | backend/api/serializers.py:200 | The score is a percentage from 0 to 100, the floor of correct·100/total. It is 100 exactly when all answers are correct. |
| Serializers.FindPosition | backend/api/serializers.py:86-93 | The lookup finds a position with the given id, or reports that none has it. |
| Serializers.AssignedPosition | backend/api/serializers.py:86-93 | A position is assigned only if it is open and was asked for. Otherwise no id (or id 0) was given, or the position is closed or missing. |
| AttemptLedger.CompletedCount | backend/api/views.py:391-396 | Completed results of the given kind are counted, never more than there are results. |
| AttemptLedger.CompletedCountCounts | backend/api/views.py:410-415 | The count equals the size of the set of positions of completed results of that kind. |
| AttemptLedger.Gate | backend/api/views.py:464-508 | A blocked user is refused with the stored reason. Otherwise a refusal comes exactly when the completed count has reached the mode's limit, and it reports the count used and the limit. |
| AttemptLedger.NewestIncomplete | backend/api/views.py:531-535 | Nothing is found exactly when every result is completed. Otherwise the result found is incomplete and started no earlier than any other incomplete one. |
| AttemptLedger.TruncDiv | backend/api/views.py:546-547 | Division truncates toward zero, for negative dividends too. |
| AttemptLedger.NewAttempt | backend/api/views.py:560-578 | A new attempt is numbered one past the existing results, is open and empty, has the requested kind and starts now. |
| AttemptLedger.Start | backend/api/views.py:452-592 | Refusals and resumptions leave the results unchanged. A resumption returns an open result. A start appends the new attempt and at most closes earlier ones. |
| AttemptLedger.OpenAttemptIsResumed | backend/api/views.py:537-552 | The newest open attempt is resumed within its time limit, with elapsed and remaining minutes. |
| AttemptLedger.ExpiredAttemptIsClosed | backend/api/views.py:553-578 | An expired open attempt is closed at the current time with its score kept, and a new attempt is started. |
| AttemptLedger.NoOpenAttemptAppends | backend/api/views.py:559-578 | Without an open attempt, a start appends exactly one new attempt. |
| AttemptLedger.StartKeepsHistory | backend/api/views.py:514-578 | Starting never drops results and never lowers a completed count. |
| AttemptLedger.LeaveReason | backend/api/views.py:641 | The block reason names the number of page leaves. |
| AttemptLedger.LeaveReasonInjective | backend/api/views.py:641 | Different leave counts give different reasons. |
| AttemptLedger.VisibleTests | backend/api/views.py:118-143 | Anonymous users see every test, and nothing is added. |
| AttemptLedger.VisibleTestsMembers | backend/api/views.py:118-143 | A known user sees exactly the tests whose attempts are not exhausted. |
| AttemptLedger.VisibleTestsKeepOrder | backend/api/views.py:118-143 | The filter keeps the list's order. |
| AttemptLedger.PageSize | backend/api/views.py:167-175 | The page size is clamped to 1..100. A missing or malformed parameter, or one below 1, gives 20. |
| AttemptLedger.PageSizeOfNumber | backend/api/views.py:167-175 | A number n gives n clamped to 1..100, except that one below 1 gives 20. |
| AttemptLedger.Ledger.constructor | backend/tests/models.py:73-80 | A candidate starts with no results, no answers and no block. |
| AttemptLedger.Ledger.Questions | backend/api/views.py:372-446 | A known user past the gate is refused. Otherwise the sample error occurs exactly when the sample cannot be drawn. The questions shown have the mode's count and come from the test. |
| AttemptLedger.Ledger.StartTest | backend/api/views.py:452-601 | A request without a telegram id is refused (400) and one for an unknown user is refused (404), both changing nothing. Otherwise the new results and outcome are those of `Start`. An id is used only by a start. Blocks, answers and CV are unchanged. |
| AttemptLedger.Ledger.NotifyPageLeave | backend/api/views.py:605-677 | Without a telegram id the request is refused (400), and for an id no user has it is refused (404). Nothing changes in either case. Otherwise the user is blocked exactly at two or more leaves, with the leave reason and the current time, and fewer leaves change nothing. |
| AttemptLedger.Ledger.BlockUser | backend/api/views.py:680-707 | Without a telegram id the request is refused (400), and for an id no user has it is refused (404). Nothing changes in either case. Otherwise the user is blocked now. The reason stored is the text sent, the default when the field is left out, and none when it is sent as null. Nothing else changes. |
| AttemptLedger.Ledger.Submit | backend/api/serializers.py:153-205 | An inactive test is not found. Otherwise the outcome is `Grade`'s. Success appends one result and its answers, and failure changes nothing. |
| AttemptLedger.Submitted | backend/api/serializers.py:169-175 | A submitted result scores correct·100/total against the test's full question count. It stays incomplete, as attempt 1 and not a trial. |
| AttemptLedger.SubmissionUsesNoAttempt | backend/api/serializers.py:169-175 | A submission does not raise the completed count of either kind. |
| AttemptLedger.SubmittedResultIsResumed | backend/api/views.py:531-552 | After a start and a submission, a later start within the time limit resumes the submitted result. |
| AttemptLedger.NewestOpenIsResumed | backend/api/views.py:537-552 | Past the gate, the newest open attempt is resumed while its time lasts. |
| SheetCodec.CorrectAmong | backend/api/views.py:229-235 | The correct-option number is found among the first options written. |
| SheetCodec.CorrectAmongFinds | backend/api/views.py:229-235 | The number is 1 + the index of the first correct option, or 0 when there is none. |
| SheetCodec.ExportQuestions | backend/api/views.py:203-247 | The export writes the worksheet `ExportSheet` describes. |
| SheetCodec.WriteQuestionRow | backend/api/views.py:237-247 | One question row holds the text, up to four options and the correct number. |
| SheetCodec.HeaderFrom | backend/api/views.py:298-302 | The search as written gives a start row from 1 to 20. |
| SheetCodec.HeaderFromFinds | backend/api/views.py:298-302 | As written, the search stops below the first of rows 1-19 whose first cell contains "Savol". Row 1 is the start when no row does. |
| SheetCodec.HeaderFromFixed | backend/api/views.py:298-302 | The corrected search gives a start row from 1 to 20. |
| SheetCodec.HeaderFromFixedFinds | backend/api/views.py:298-302 | The corrected search stops below the first row whose first cell is the column header "Savol". |
| SheetCodec.FindStartRow | backend/api/views.py:298-302 | The loop computes the corrected start row. |
| SheetCodec.RowOptions | backend/api/views.py:314-318 | At most one option is read per option column. |
| SheetCodec.RowOptionsAreClean | backend/api/views.py:314-318 | Every option read is stripped and non-blank. |
| SheetCodec.ParseRowCases | backend/api/views.py:305-335 | A row is skipped exactly when its text is blank. It is parsed exactly when it has options and a correct number from 1 to their count. Otherwise the error names missing options or a bad number. |
| SheetCodec.ParsedRowIsWellFormed | backend/api/views.py:305-335 | A parsed row has clean text, 1-4 clean options and one correct option among them. |
| SheetCodec.ReadRow | backend/api/views.py:305-335 | Reading a row gives the outcome `ParseRow` describes. |
| SheetCodec.NumberedOptions | backend/api/views.py:344-351 | Options keep their texts and are numbered from 0. Only the chosen one is marked correct. |
| SheetCodec.NumberOptions | backend/api/views.py:344-351 | The loop builds the numbered options. |
| SheetCodec.ImportRows | backend/api/views.py:305-353 | The row loop folds every row from the start row to the last one in use. |
| SheetCodec.Record | backend/api/views.py:337-353 | One row's outcome either adds a question, numbered in order, or logs its error. |
| SheetCodec.ImportQuestions | backend/api/views.py:294-353 | The import, with the corrected header search, gives the outcome `ImportFixed` defines. |
| SheetCodec.ImportedQuestionsAreWellFormed | backend/api/views.py:337-353 | Every imported question, with either search, has its position as its order and 1-4 options with exactly one correct. |
| SheetCodec.ExportStartRow | backend/api/views.py:209 | As written, the search stops at the "Savollar soni:" label on row 4 of an export, so reading starts at row 5. |
| SheetCodec.ExportHeaderRowFails | backend/api/views.py:325-335 | The column header row of an export is read as a question whose answer is not a number. |
| SheetCodec.ExportImportRoundTrip | backend/api/views.py:203-353 | As written, importing an export recreates every question in order but reports one spurious error for the header row. |
| SheetCodec.ExportStartRowFixed | backend/api/views.py:209-219 | With the corrected search, an export is read from the row below its column headers. |
| SheetCodec.FixedExportImportRoundTrip | backend/api/views.py:203-353 | With the corrected search, importing an export recreates every question in order and reports nothing. |
| AdminImport.OptionCells | backend/tests/admin.py:154-159 | Only non-empty option cells are read, at most one per column. |
| AdminImport.FilledColumns | backend/tests/admin.py:154-159 | The filled option columns, in increasing order and all of them. |
| AdminImport.OptionCellsAreFilledColumns | backend/tests/admin.py:154-159 | The options read are exactly the filled option cells, in column order. |
| AdminImport.ReadOptionCells | backend/tests/admin.py:154-159 | The loop reads the non-empty option cells of a row. |
| AdminImport.ImportExcel | backend/tests/admin.py:130-179 | The import computes `AdminImportOf`: the test record and the questions read. |
| AdminImport.CreateQuestion | backend/tests/admin.py:147-151 | A question row adds a question, and the order counter stays one past the questions created. |
| AdminImport.ReadQuestionRow | backend/tests/admin.py:134-145 | Reading a row gives the outcome `ReadAdminRow` describes. |
| AdminImport.ReadAdminRowCases | backend/tests/admin.py:134-159 | A row is a question exactly when its text is non-empty and does not look like a header. Its options are the filled cells, numbered from 1. |
| AdminImport.GenuineQuestionSkipped | backend/tests/admin.py:141-145 | A real question mentioning "option" is skipped as a header. |
| AdminImport.CreateOptions | backend/tests/admin.py:162-176 | The loop builds the options `AdminOptions` describes. |
| AdminImport.CorrectOptionCases | backend/tests/admin.py:162-176 | At most one option is correct. An empty answer marks none, a non-number marks the first, and a number n marks option n. |
| AdminImport.QuestionOrders | backend/tests/admin.py:131-179 | Imported questions are numbered 1, 2, … in row order. |
| AdminImport.AdminRowsFrame | backend/tests/admin.py:134-179 | The import depends only on the first six columns of the rows read. |
| AdminImport.TestInfoRead | backend/tests/admin.py:107-126 | The import is rejected exactly when a non-empty time limit or pass mark is not an integer. Otherwise missing values default to 60. |
| AdminImport.WrittenLimitsRead | backend/tests/admin.py:118-126 | Integers written as the limits are read back as written. |
| AdminImport.DownloadTemplate | backend/tests/admin.py:61-93 | The template holds exactly the cells `TemplateCell` describes, down to the last example row. |
| AdminImport.WriteTestInfo | backend/tests/admin.py:61-77 | The test-information rows are written. |
| AdminImport.WriteHeaders | backend/tests/admin.py:79-82 | The column headers are written below them. |
| AdminImport.WriteExample | backend/tests/admin.py:84-93 | One more example question row is written. |
| AdminImport.TemplateImports | backend/tests/admin.py:61-176 | Importing the template gives its test record and its three example questions, each with the first option correct. |
| TelegramText.HtmlToTelegram | backend/users/services.py:18-77 | The converter as written. Empty input gives empty output, and the output has no surrounding whitespace. |
| TelegramText.HtmlToTelegramFixed | backend/users/services.py:18-77 | The converter with the corrected block pattern (see Findings), with the same empty-input and whitespace guarantees. |
| TelegramText.OutputHasNoTripleNewline | backend/users/services.py:66-77 | Neither the converter as written nor the corrected one outputs three newlines in a row. |
| TelegramText.LineBreaksBecomeNewlines | backend/users/services.py:28 | Each of the three line-break spellings becomes a newline. |
| TelegramText.FormattingTagsNormalised | backend/users/services.py:31-36 | Strong/b and em/i become b and i, in any letter case. |
| TelegramText.ListItemsBecomeBullets | backend/users/services.py:58 | An opening list-item tag, with any attributes, becomes a bullet. |
| TelegramText.ListItemEndsBecomeNewlines | backend/users/services.py:59 | A closing list-item tag becomes a newline. |
| TelegramText.BlockTagsBecomeNewlines | backend/users/services.py:63 | As written, each block tag with any attributes becomes a newline. |
| TelegramText.PreTagsBecomeNewlines | backend/users/services.py:51-63 | As written, the supported pre tags are also turned into newlines. |
| TelegramText.FixedBlockTagsBecomeNewlines | backend/users/services.py:63 | With the corrected pattern, block tags still become newlines. |
| TelegramText.FixedBlockKeepsSupportedTags | backend/users/services.py:39-63 | With the corrected pattern, the supported tags kept earlier pass through unchanged. |
| TelegramText.TagRewritesKeepPreBlock | backend/users/services.py:27-59 | Every rewrite before the block pattern leaves a code block `<pre>x</pre>` unchanged. |
| TelegramText.PreBlockLosesTags | backend/users/services.py:18-77 | As written, a code block around plain text converts to the text alone: the pre formatting is lost. |
| TelegramText.FixedKeepsPreBlock | backend/users/services.py:18-77 | The corrected converter sends a code block around plain text unchanged. |
| TelegramText.EntitiesDecodeInOrder | backend/users/services.py:70-75 | Entities decode in sequence, so an escaped "&amp;lt;" ends as "<". |
| Notifications.Truncated | backend/users/services.py:95-96 | A text over 4000 characters is cut to 4000, and the cut notice is appended. Shorter texts are unchanged. |
| Notifications.PlainRetry | backend/users/services.py:119-122 | The plain retry text has at most 4000 characters. |
| Notifications.PlainRetryOfUntagged | backend/users/services.py:119-122 | A text without tags is only cut to 4000 characters. |
| Notifications.TagsRemoved | backend/users/services.py:121 | A tag is removed, and the text before it is kept. |
| Notifications.EmptyBracketsKept | backend/users/services.py:121 | "<>" is not a tag and stays. |
| Notifications.SendMessage | backend/users/services.py:80-141 | Nothing is sent without a token and a Telegram id. The first post is the cut HTML text. A retry as plain text happens exactly when the markup was rejected. Success means one of the posts was accepted. |
| Notifications.PostsFitTelegram | backend/users/services.py:94-122 | No post exceeds Telegram's 4096-character limit. |
| Notifications.MessageFor | backend/users/services.py:207-211 | A titled message starts with the bold title and two newlines, and the body converted as written follows. |
| Notifications.Reachables | backend/users/services.py:170-177 | The recipients are filtered from the users, with nothing added. |
| Notifications.ReachablesMembers | backend/users/services.py:170-177 | Exactly the users with a Telegram id receive the message. |
| Notifications.RecipientsMembers | backend/users/services.py:165-177 | The recipients are the reachable users among everyone, or among those chosen. |
| Notifications.ReachablesIdempotent | backend/users/services.py:170-177 | Filtering twice changes nothing. |
| Notifications.Outcomes | backend/users/services.py:215-232 | There is one outcome per recipient. |
| Notifications.Successes | backend/users/services.py:215-222 | Successes never exceed attempts. |
| Notifications.FailureRecords | backend/users/services.py:220-232 | Failures are recorded once per failed send. |
| Notifications.FailureRecordsDescribeFailures | backend/users/services.py:220-232 | Each record names a recipient whose send failed, with the fixed failure text. |
| Notifications.AllSentNoRecords | backend/users/services.py:215-232 | When every send succeeds, nothing is recorded. |
| Notifications.Notification.constructor | backend/users/services.py:250-255 | The stored statistics (total recipients, successful and failed sends) read as zero before any broadcast, and there are no error records. |
| Notifications.Notification.Broadcast | backend/users/services.py:157-274 | The summary and the stored counters add this broadcast's recipients, successes, failures and error records. Title and audience are unchanged. |
| Notifications.Notification.Deliver | backend/users/services.py:215-265 | The text is sent to each recipient once. The counters and error records grow by this broadcast's successes, failures and failure records, and the recipient total keeps the larger count. |
| Notifications.SendAll | backend/users/services.py:215-245 | The send loop counts successes and failures and records each failure. |
| Notifications.BroadcastCountsAddUp | backend/users/services.py:215-235 | Successes plus failure records equal the recipients. |
| Pagination.Range | dashboard/src/components/Pagination.jsx:22-36 | The consecutive numbers from lo to hi. |
| Pagination.PushRange | dashboard/src/components/Pagination.jsx:22-36 | The loop appends that range. |
| Pagination.PageNumbers | dashboard/src/components/Pagination.jsx:17-40 | Up to 5 pages shows them all. More shows five consecutive pages within range, including the current page. |
| Pagination.WindowContainsPage | dashboard/src/components/Pagination.jsx:25-37 | The current page is always in the window. |
| Pagination.WindowCentred | dashboard/src/components/Pagination.jsx:33-37 | Away from both ends, the current page is in the middle of five. |
| Pagination.WindowWithinPages | dashboard/src/components/Pagination.jsx:21-37 | Every page shown exists. |
| Pagination.Pager.constructor | dashboard/src/components/Pagination.jsx:5-12 | The pager opens on page 1. |
| Pagination.Pager.ChangePageSize | dashboard/src/components/Pagination.jsx:53-56 | A new page size returns to page 1. |
| Pagination.Pager.First | dashboard/src/components/Pagination.jsx:70-71 | Goes to page 1 unless already there or the controls are hidden. |
| Pagination.Pager.Previous | dashboard/src/components/Pagination.jsx:79-80 | Goes back one page, never below 1. |
| Pagination.Pager.Next | dashboard/src/components/Pagination.jsx:100-101 | Goes on one page, never past the last. |
| Pagination.Pager.Last | dashboard/src/components/Pagination.jsx:108-110 | Goes to the last page. |
| Pagination.Pager.Choose | dashboard/src/components/Pagination.jsx:87-91 | A page from the window becomes the current one. |
| TestPage.Pad2 | webapp/src/components/TestPage.jsx:85-86 | Two digits whose value is the number, with a leading zero below ten. |
| TestPage.FormatTime | webapp/src/components/TestPage.jsx:83-87 | The clock ends in a colon and two digits. |
| TestPage.FormatTimeRoundTrip | webapp/src/components/TestPage.jsx:83-87 | Reading the clock back gives exactly the remaining seconds. |
| TestPage.AnswersPayload | webapp/src/components/TestPage.jsx:64-67 | The entries satisfy `IsPayload`: one entry per answered question with its chosen option, every answered question present, in ascending question id. |
| TestPage.PayloadIsUnique | webapp/src/components/TestPage.jsx:64-67 | The answers chosen determine the submitted list: two lists meeting `IsPayload` for the same answers are equal. |
| TestPage.TestSession.constructor | webapp/src/components/TestPage.jsx:5-11 | The page opens loading, on the first question, with no answers and the time limit in seconds. |
| TestPage.TestSession.Loaded | webapp/src/components/TestPage.jsx:26-35 | The loaded questions replace the list; a failed load keeps it. Loading ends. |
| TestPage.TestSession.Select | webapp/src/components/TestPage.jsx:37-42 | The choice for one question is replaced, and every other answer is kept. |
| TestPage.TestSession.ChooseOption | webapp/src/components/TestPage.jsx:128-133 | Clicking an option records it for the current question. A non-zero option enables moving on. |
| TestPage.TestSession.Next | webapp/src/components/TestPage.jsx:44-48 | Moves on, never past the last question. |
| TestPage.TestSession.Previous | webapp/src/components/TestPage.jsx:50-54 | Moves back, never below the first question. |
| TestPage.TestSession.PressNext | webapp/src/components/TestPage.jsx:158-161 | The next button moves on only once the current question is answered. |
| TestPage.TestSession.Submit | webapp/src/components/TestPage.jsx:56-81 | Nothing happens while a submission is in flight. Otherwise exactly one submission is posted (`PostedOnce`): earlier posts are kept, and the new one is for this test, with the whole seconds elapsed and answers meeting `IsPayload` (one entry per answered question, in ascending question id, each with the chosen option). Acceptance completes the page, and refusal re-enables the button. |
| TestPage.TestSession.PressFinish | webapp/src/components/TestPage.jsx:149-153 | Finish posts only when the last question is answered and no submission is in flight. The post is the same as `Submit`'s (`PostedOnce`): earlier posts kept, this test, whole seconds, the `IsPayload` answers, and re-enabled on refusal. Otherwise nothing changes. The page's questions, answers, clock and validity are kept. |
| TestPage.TestSession.TimerStep | webapp/src/components/TestPage.jsx:17-24 | While time is left, a second passes and nothing else changes. At zero with no submission in flight, the answers are submitted as in `Submit` (`PostedOnce`). At zero during one, nothing is posted. The page's questions, answers and validity are kept. |
| CVUpload.Refusal | webapp/src/components/CVUploadPage.jsx:14-24 | A file is refused exactly when its type is not PDF/DOC/DOCX or it exceeds 10 MB. The type is checked first. |
| CVUpload.FailureMessage | webapp/src/components/CVUploadPage.jsx:81 | The server's non-empty error is shown, or a fixed message; never an empty one. |
| CVUpload.UploadPage.constructor | webapp/src/components/CVUploadPage.jsx:5-8 | The page starts with no file, no error and nothing sent. |
| CVUpload.UploadPage.SelectFile | webapp/src/components/CVUploadPage.jsx:10-29 | An accepted file replaces the held one and clears the error. A refused one only shows why. |
| CVUpload.UploadPage.DropFile | webapp/src/components/CVUploadPage.jsx:36-56 | A dropped file is handled by the same rules. |
| CVUpload.UploadPage.BeginUpload | webapp/src/components/CVUploadPage.jsx:58-65 | Without a file, only the missing-file error is shown. With one, exactly that file is sent. |
| CVUpload.UploadPage.FinishUpload | webapp/src/components/CVUploadPage.jsx:77-84 | Success drops the file and confirms. Failure keeps it and shows why. Either way uploading stops. |
| CVUpload.AcceptedDocuments | webapp/src/components/CVUploadPage.jsx:14-24 | Accepted files fit 10485760 bytes, and any PDF within it is accepted. |
| CVSearch.Search | dashboard/src/components/CVsList.jsx:66-73 | Only matching CVs are kept, with nothing added. |
| CVSearch.SearchMembers | dashboard/src/components/CVsList.jsx:66-73 | A CV is kept exactly when it was fetched and matches. |
| CVSearch.SearchAppend | dashboard/src/components/CVsList.jsx:66-73 | The search keeps the fetched order. |
| CVSearch.SearchKeepsMatching | dashboard/src/components/CVsList.jsx:66-73 | A list whose CVs all match is shown unchanged. |
| CVSearch.SearchIdempotent | dashboard/src/components/CVsList.jsx:66-73 | Searching twice with one term changes nothing more. |
| CVSearch.ShownList | dashboard/src/components/CVsList.jsx:65-73 | No term shows the fetched list; a term shows exactly the matches. |
| CVSearch.FoundByEmail | dashboard/src/components/CVsList.jsx:68-72 | An email equal to the term, ignoring case, is found. |
| CVSearch.NothingToMatch | dashboard/src/components/CVsList.jsx:67-72 | A CV with no applicant and no file name is found by no term longer than one character. |
| CVSearch.PagesFor | dashboard/src/components/CVsList.jsx:77-79 | The page count is the count divided by 20, rounded up. |
| CVSearch.TotalPages | dashboard/src/components/CVsList.jsx:77-79 | A non-zero server count sets the page count. Otherwise the previous count is kept. |
| QuizHandlers.Truncate | telegram_bot/test_handlers.py:144 | Truncation toward zero of the elapsed time. |
| QuizHandlers.LastWithId | telegram_bot/test_handlers.py:104-110 | The index found has the chosen id and no later option has it; none is found exactly when no option has it. |
| QuizHandlers.LastCorrect | telegram_bot/test_handlers.py:104-110 | The index found is marked correct and no later option is; none is found exactly when no option is correct. |
| QuizHandlers.FindOptions | telegram_bot/test_handlers.py:104-110 | The loop finds `LastWithId` and `LastCorrect`: the last option with the chosen id and the last correct option, or reports that there is none. |
| QuizHandlers.ScanJudgesChosenOption | telegram_bot/test_handlers.py:104-121 | With distinct ids, the answer is judged right exactly when the chosen option exists and is correct. |
| QuizHandlers.FeedbackIsRightExactly | telegram_bot/test_handlers.py:104-125 | With distinct ids, the feedback for the scan's results is the right text exactly when the question has an option with the chosen id marked correct. |
| QuizHandlers.Feedback | telegram_bot/test_handlers.py:120-127 | A right answer gets the right text. A wrong one gets the wrong text, plus the correct answer when there is one. |
| QuizHandlers.ChatQuiz.constructor | telegram_bot/test_handlers.py:18-47 | A chat starts with no quiz and nothing posted. |
| QuizHandlers.ChatQuiz.Start | telegram_bot/test_handlers.py:18-47 | A failed load or an empty test only alerts and leaves the whole quiz state as it was. Otherwise the quiz starts at question 0 with no answers, showing answers immediately unless the test says not to. |
| QuizHandlers.ChatQuiz.Complete | telegram_bot/test_handlers.py:135-199 | The answers, the whole seconds elapsed and the user's own id are posted once. A CV is asked for exactly when a passed result requires one. The quiz is cleared. |
| QuizHandlers.ChatQuiz.CompleteAsWritten | telegram_bot/test_handlers.py:141 | As written, the result is posted under the bot's id, never the user's. |
| QuizHandlers.ChatQuiz.ShowQuestion | telegram_bot/test_handlers.py:50-58 | A remaining question is shown. Past the last one, the quiz is completed: with `asWritten` as the handler does it, under the bot's id, otherwise with the corrected submission under the user's id. |
| QuizHandlers.ChatQuiz.ProcessAnswer | telegram_bot/test_handlers.py:85-132 | A bad index is rejected. Otherwise the answer is appended and the next question shown. When the test shows answers, the alert is the `Feedback` for the scan's results (`LastWithId`, `LastCorrect`); otherwise there is none. The last answer completes the quiz, under the bot's id with `asWritten` and under the user's otherwise. |
| QuizHandlers.AnswerAll | telegram_bot/test_handlers.py:85-199 | Answering every question posts one result holding each question's chosen option, in order. With `asWritten` the result is posted under the bot's id, never the user's; with the correction, under the user's. |
| Registration.Entries | telegram_bot/bot.py:186-196 | A bare list is used as it is and a paginated dict gives its results. Anything else gives nothing. |
| Registration.OpenPositions | telegram_bot/bot.py:199 | Only open positions are offered. |
| Registration.OpenPositionsMembers | telegram_bot/bot.py:199 | A position is offered exactly when it was listed and is open. |
| Registration.OpenByDefault | telegram_bot/bot.py:199 | A listed position without an open flag counts as open, and an explicit false does not. |
| Registration.ButtonIds | telegram_bot/bot.py:204-213 | Only entries with a truthy id get a button. |
| Registration.ButtonIdsAppend | telegram_bot/bot.py:204-213 | Buttons keep the list's order. |
| Registration.TestButtons | telegram_bot/bot.py:326-336 | At most the first five tests get buttons. |
| Registration.LaterTestsIgnored | telegram_bot/bot.py:326-336 | Tests after the first five never change the buttons. |
| Registration.ShownResults | telegram_bot/bot.py:557-558 | At most ten results are shown, all dicts from the first ten. |
| Registration.DictsIn | telegram_bot/bot.py:557-558 | Only dict entries are kept. |
| Registration.StartRoute | telegram_bot/bot.py:97-113 | A known user with a complete profile goes to the menu; everyone else registers. |
| Registration.PhoneOf | telegram_bot/bot.py:147-151 | A shared contact's phone wins. Typed text is used otherwise. Empty values give no phone. |
| Registration.RegistrationChat.constructor | telegram_bot/bot.py:88-113 | A chat starts idle with nothing collected and nothing sent. |
| Registration.RegistrationChat.Clear | telegram_bot/bot.py:226 | Clearing forgets everything collected. |
| Registration.RegistrationChat.Start | telegram_bot/bot.py:88-113 | The route is `StartRoute`'s, and registration begins by asking for the first name. |
| Registration.RegistrationChat.FirstNameGiven | telegram_bot/bot.py:116-121 | The first name is kept, and the last name is asked for. |
| Registration.RegistrationChat.LastNameGiven | telegram_bot/bot.py:124-141 | The last name is kept, and the phone is asked for. |
| Registration.RegistrationChat.PhoneGiven | telegram_bot/bot.py:144-161 | A phone is accepted exactly when one was given, and then the email is asked for. |
| Registration.RegistrationChat.EmailGiven | telegram_bot/bot.py:164-233 | Exactly a valid email is accepted. Open positions are then offered as buttons, keeping the collected fields. Without any, the conversation ends. |
| Registration.RegistrationChat.PositionChosen | telegram_bot/bot.py:236-296 | A missing position or a closed one sends nothing. An open one sends the collected applicant once. Either way the conversation ends. |
| Registration.Register | telegram_bot/bot.py:116-296 | A full conversation with valid answers and an open position sends exactly that applicant once. |

## Left out

- Scoring: the score is the integer floor of correct·100/total. The source truncates a floating-point product, which can differ from the floor when the product is not exact.
- Elapsed and remaining minutes are computed from integer seconds. Sub-second timestamps, time zones and the clock itself are parameters.
- Lower-casing covers ASCII letters only. Unicode case folding is not modelled.
- Common.ParseInt: reads ASCII decimal digits only. Python's `int()` also accepts underscores between digits and Unicode decimal digits; those spellings are not modelled.
- Database ordering, transactions, HTTP, the Telegram API, the network, concurrency and the race between two simultaneous starts are outside the model. Each reply is an input.
- AttemptLedger.Ledger.Submit: a failed submission changes nothing in the model. In the source it leaves rows behind, because there is no transaction. serializers.py:169-175 inserts the result row before the answer loop: incomplete, and with no score. The answer rows stored before a repeated question persist with it. A later `start_test` resumes or expires that leftover row as the open attempt (views.py:531-557), and counts it when it numbers the next attempt (views.py:560-578). The model captures neither the leftover row nor these effects.
- Random sampling and shuffling take an oracle sequence of draws. The properties hold for every oracle, but the particular random distribution is not modelled.
- Generated tokens (UUIDs) and file storage are outside the model.
- Notifications.Notification.Broadcast: the outer exception branch and the zero defaults of the statistics are not modelled.
- Message texts, keyboards and menu layouts of the bot and the web pages are out of scope, apart from the constants the logic compares.
- Callback-data parsing in the bot: the question index is a natural number and the test id an integer. Negative indices and malformed data are not modelled.
- Registration.RegistrationChat.EmailGiven: a message without text is not modelled.
- CV list: the logout on an unauthorised reply is not modelled, nor is a dict reply without results.
- File-size formatting for display is out of scope.
- Bot handlers other than registration and the quiz (menus, CV upload in chat, result display texts) are not part of this model.
- Notifications.TagsRemoved: the tag-stripping rule is stated for one tag with no `<` before it and no `>` inside it. Overlapping brackets are not characterised beyond the rewrite definition.
- TestModels.NewResult: `score` (tests/models.py:73) has no default and does not allow null, and serializers.py:169-175 creates the result without it. Under a schema that enforces NOT NULL, that insert fails and no submission ever completes. The model assumes the insert succeeds and stores the computed score. The database migrations are not part of this model, so it does not decide which schema applies.
- Sheet cells are strings. A numeric 0 cell (falsy in the source) and the string "0" (truthy) are not told apart.
- Serializers.ScoreBounds: the examples that the denominator is the full question count are fixed cases; the general rule is the `Submitted` contract.

## Findings

| source | as written | input that shows it | evidently intended | confidence | as-written member | corrected member |
|---|---|---|---|---|---|---|
| backend/api/views.py:298-302 | The header search takes the first of rows 1-19 whose first cell contains "Savol". The export writes "Savollar soni:" on row 4, so the import starts at row 5 and reads the column header row as a question. | Export any test, then import the sheet: the result holds one error, "row 6: correct answer not 1-4". | Start below the column header "Savol", so an export imports without errors. | medium, not executed | SheetCodec.ExportImportRoundTrip | SheetCodec.FixedExportImportRoundTrip |
| backend/users/services.py:63 | The block-tag pattern (p, div, span, h1-h6, ul or ol, then `[^>]*`) also matches `<pre>` and `</pre>`, which lines 51-52 had kept as supported tags. They become newlines. | The message `<pre>x</pre>` converts to "x" with no pre formatting. | Block names end at the tag name, so supported tags such as pre pass through. | high, not executed | TelegramText.PreBlockLosesTags | TelegramText.FixedKeepsPreBlock |
| telegram_bot/test_handlers.py:141 | The result is posted with `message.from_user.id`. Here `message` is the callback's message, which the bot sent, so the id is the bot's. | Complete any quiz by pressing an answer button: the result is posted under the bot's id. | The id of the user who pressed the button (`callback.from_user.id`). | high, not executed | QuizHandlers.ChatQuiz.CompleteAsWritten | QuizHandlers.ChatQuiz.Complete |
