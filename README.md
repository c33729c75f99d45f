# senbox-api core, modelled in Dafny

This project models five pieces of the senbox-api Go service and proves properties of them.

- **The question repository.**
  - It normalises imported question definitions.
  - It keeps the `s_question` table with upserts keyed on `question_id`.
  - It answers the per-form query.
- **The form-question assembler.** `GetQuestionByForm` and `GetQuestionsByForm` run in two passes.
  - The first pass decodes and drops rows.
  - The second pass classifies each row. It aborts with 400 on a non-general kind. It fills in code-counting and randomizer values when the form is read, and aborts with 555 when that fails.
- **The to-do completion use case.**
  - `findFirstRow` finds the task's sheet row.
  - The task-list update marks the completed task.
  - It writes the completion and history columns.
  - `LogTask` checks its guards in order before writing.
- **The setting-message use case.**
  - It extracts the spreadsheet id from the configured URL.
  - It folds the rows into messages and a first valid font size.
- **The user creation hook** `SUserEntity.BeforeCreate`.

## Module layout

| File | Contents |
|---|---|
| `Wrappers.dfy` | `Option` and `Result`. |
| `GoText.dfy` | The Go library text functions the core calls: `strings.TrimSpace`, `strings.ToUpper`/`ToLower`, `html.EscapeString`, `strconv.Atoi`/`Itoa`. |
| `JsonModel.dfy` | `encoding/json` decoding into a struct. Text parsing is a parameter; Go's rules for matching a document to a struct are modelled. |
| `QuestionTypes.dfy` | The `value` package's kinds and statuses. Its lookups form a `Registry` of uninterpreted functions. |
| `Entities.dfy` | `SQuestion`, `SForm`, `SFormQuestion` and the joined `FormQuestionItem`. |
| `SeqUtil.dfy` | Generic filter-map and sort-by-key, with their specifications. |
| `QuestionRepository.dfy` | The normaliser, the batch, the upsert table model and the `QuestionStore` class. |
| `FormQuestions.dfy` | The assembler: both passes, the builders and the code generator. |
| `Sheets.dfy` | Sheet reader and writer classes that record every request. |
| `MarkTodo.dfy` | `MarkToDoAsDoneUseCase`. |
| `SettingMessage.dfy` | `GetSettingMessageUseCase`. |
| `UserEntity.dfy` | `SUserEntity` and its hook. |

Effects become parameters or recorded calls:

- The database's success is a `dbOk` flag, except for the form query, whose outcome is a `FormQueryOutcome`.
- Sheet calls, the code generator, UUID generation and bcrypt give their outcomes as functions of the request number and the request, or as parameters. The objects that stand for them record what was asked of them.
- The clock is a `now` parameter.
- The random tokens are a `tokens: nat -> string` parameter, indexed by draw number.

## Model

| member | source | states |
|---|---|---|
| GoText.TrimSpace | src/internal/domain/entity/s_user_entity.go:46 | The result is a slice of the input. Everything cut before and after it is white space, and the result neither starts nor ends with white space. |
| GoText.UpperFixpoints | src/internal/domain/usecase/get_questions_by_form_id_usecase.go:48 | Upper-casing yields text with no lower-case ASCII letter. It leaves a text unchanged exactly when the text has none. |
| GoText.ToUpperIdempotent | src/internal/domain/usecase/get_questions_by_form_id_usecase.go:168 | Upper-casing keeps the length, leaves no lower-case ASCII letter, and a second upper-casing changes nothing; so the builders' re-upper-casing of an already rendered type is a no-op. |
| GoText.ToLowerSpec | src/internal/domain/entity/s_user_entity.go:46 | Lower-casing keeps the length, leaves no ASCII capital and changes nothing else. |
| GoText.EscapeHtml | src/internal/domain/entity/s_user_entity.go:46 | Escaped text holds no raw `<`, `>`, `"` or `'` and is never shorter than the input. |
| GoText.EscapeRoundTrip | src/internal/domain/entity/s_user_entity.go:46 | Unescaping the five entities gives back exactly the original text. |
| GoText.LowerEscapeCommute | src/internal/domain/entity/s_user_entity.go:46 | Lower-casing after escaping equals escaping after lower-casing. |
| GoText.EscapeLast | src/internal/domain/entity/s_user_entity.go:46 | Escaped text ends with `;` or with the input's last character. |
| GoText.ParseInt | src/internal/domain/usecase/get_setting_message_usecase.go:60 | `strconv.Atoi` accepts only an optional leading sign followed by at least one decimal digit and nothing else, with a value inside the 64-bit range. Conversely it reads every such text: plain digits and `+` digits as their value, `-` digits as the negated value. A digit text whose value, with its sign, lies outside the 64-bit range is refused, whether it is unsigned, `+` or `-`. |
| GoText.ParseIntItoa | src/internal/domain/usecase/mark_todo_as_done_usecase.go:56 | `Atoi` reads back what `Itoa` writes for every 64-bit integer. |
| JsonModel.FieldIndexSpec | src/internal/data/repository/question_repository.go:158-162 | A key lands in the first field with exactly its name if there is one. Otherwise it lands in the first field equal up to ASCII case. It is ignored exactly when no field matches even up to case, and a field it lands in always matches it up to case. |
| JsonModel.FirstExactIsFirst | src/internal/data/repository/question_repository.go:158-162 | A field is the exact match for a key when it is the first field with that name. |
| JsonModel.UnmarshalFlat | src/internal/data/repository/question_repository.go:158-166 | Decoding an object into a struct of `string`, `int` and `bool` fields succeeds exactly when every member whose key lands in a field holds `null` or a value of that field's kind. Each field then holds the value of the last non-null member landing in it, and fields no such member lands in stay zero. |
| JsonModel.FoldLastSet | src/internal/data/repository/question_repository.go:158-162 | Members are decoded in document order, so of repeated keys the last non-null one wins. |
| JsonModel.FoldNeverSet | src/internal/data/repository/question_repository.go:158-162 | A field only `null` members or none land in keeps its value. |
| JsonModel.UnknownKeysIgnored | src/internal/data/repository/question_repository.go:158-162 | An object whose keys match no field decodes without error. |
| JsonModel.MissingKeysAccepted | src/internal/data/repository/question_repository.go:158-162 | `{}` and `null` decode to the zero struct. |
| JsonModel.WrongKindRejected | src/internal/data/repository/question_repository.go:158-166 | A present field holding the wrong JSON kind makes the whole decode fail. |
| JsonModel.NullResetsList | src/internal/data/repository/question_repository.go:346-356 | A later `null` member resets a slice field that an earlier member filled to the empty (nil) slice, while a `null` member leaves a string field as an earlier member set it. |
| JsonModel.DecodeSingleString | src/internal/domain/usecase/get_questions_by_form_id_usecase.go:159-161 | `{"<key>": "<v>"}` decodes to the zero struct with only that string field set. |
| QuestionRepository.UnmarshalQuestion | src/internal/data/repository/question_repository.go:67-155 | A definition fails exactly when its type is unknown, its payload does not fit the kind's shape, or its status is unknown. The checks run in that order. A success copies the fields, keeps the payload text unchanged, parses the status, keeps the unique id except for six kinds, and sets `Set` only in the fallback variant. |
| QuestionRepository.PayloadIgnoredWithoutShape | src/internal/data/repository/question_repository.go:247-264 | Kinds whose variant never decodes the payload give the same verdict for any payload. |
| QuestionRepository.SelectionWithNamedOptionsAccepted | src/internal/data/repository/question_repository.go:346-377 | A selection with named options and a known status is accepted. |
| QuestionRepository.SelectionWithStringOptionsRejected | src/internal/data/repository/question_repository.go:346-360 | A selection whose `options` is a string is rejected as invalid attributes. |
| QuestionRepository.BatchSkipsFailures | src/internal/data/repository/question_repository.go:54-65 | The batch holds exactly the normalised definitions that succeed, one per such item, in input order. Every failure is skipped. |
| QuestionRepository.UnmarshalQuestions | src/internal/data/repository/question_repository.go:54-65 | The loop computes exactly that batch. |
| QuestionRepository.LastWith | src/internal/data/repository/question_repository.go:40-45 | It finds the last row of the batch with the given id (no later row has that id), or reports that none has it. |
| QuestionRepository.UpsertAllAt | src/internal/data/repository/question_repository.go:40-45 | After a batch upsert, ids outside the batch are untouched. A stored id takes the listed columns from the batch's last row with that id and keeps the rest. A new id is inserted. |
| QuestionRepository.UpsertAllValid | src/internal/data/repository/question_repository.go:40-45 | Upserts keep rows under their own id, with distinct, issued primary keys. |
| QuestionRepository.UpsertAllNoInsert | src/internal/data/repository/question_repository.go:379-384 | A batch of stored ids inserts nothing. |
| QuestionRepository.UpsertIdempotent | src/internal/data/repository/question_repository.go:40-45 | Re-applying a batch at the same time changes nothing. |
| QuestionRepository.UpsertTwiceLatestWins | src/internal/data/repository/question_repository.go:40-45 | Two upserts with one id leave one row holding the later attributes. |
| QuestionRepository.SelectByIds | src/internal/data/repository/question_repository.go:477-484 | It returns the stored rows whose ids were asked for, each once. |
| QuestionRepository.JoinActiveMembers | src/internal/data/repository/question_repository.go:617-621 | The join's k-th item is built from the k-th shown link, in link order, and from that link's question: one item per link of the form whose question is stored and active, and none for any other link. |
| QuestionRepository.FormRowsSpec | src/internal/data/repository/question_repository.go:614-635 | The form query is sorted by order and is a permutation of the join. Its members are exactly the shown links' items, and all of them are active. |
| QuestionRepository.QuestionStore.UpsertBatch | src/internal/data/repository/question_repository.go:40-45 | Applies the batch row by row; the new table is `UpsertAll` of the old one, and the table stays valid. |
| QuestionRepository.QuestionStore.Upsert | src/internal/data/repository/question_repository.go:40-49 | An empty batch is refused and a failed statement changes nothing. Otherwise the table becomes the batch upsert of the old one. |
| QuestionRepository.QuestionStore.Create | src/internal/data/repository/question_repository.go:31-52 | Empty params give an empty list and no change. Otherwise the normalised batch is upserted with the nine `Create` columns and returned with zero timestamps filled in. An all-invalid batch gives the empty-slice error, and a failed statement changes nothing. |
| QuestionRepository.QuestionStore.SaveQuestions | src/internal/data/repository/question_repository.go:379-390 | Upserts the rows with the six `SaveQuestions` columns and returns them with zero timestamps filled in. An empty slice or a failed statement is an error and changes nothing. |
| QuestionRepository.QuestionStore.FindById | src/internal/data/repository/question_repository.go:468-475 | It returns the row stored under the id, or not-found, or the database error. |
| QuestionRepository.QuestionStore.GetQuestionsByIds | src/internal/data/repository/question_repository.go:477-484 | It returns the stored rows among the ids, each once. |
| QuestionRepository.QuestionStore.GetQuestionsByFormId | src/internal/data/repository/question_repository.go:614-635 | Corrected: the result is the form query when the query and every row scan succeed; a failed query, a failed scan or an iteration that breaks off is returned as a database failure. It agrees with the code as written on a clean run and on a failed scan. |
| QuestionRepository.FormQueryAsWritten | src/internal/data/repository/question_repository.go:617-631 | As written: a failed query crashes the handler, a failed scan is returned as an error, a successful run returns the form query, and an iteration that breaks off after `n` rows returns the first `n` rows with no error. |
| QuestionRepository.DeferredCloseOnFailedQuery | src/internal/data/repository/question_repository.go:617-625 | On a failed query the code as written crashes. On a clean run or a failed scan it returns what the corrected store returns. |
| QuestionRepository.SilentTruncation | src/internal/data/repository/question_repository.go:626-634 | When the iteration breaks off before the last row, the code as written returns a strict prefix of the form's rows and no error. |
| QuestionRepository.QuestionStore.DeleteQuestionsFormNote | src/internal/data/repository/question_repository.go:680-682 | It removes exactly the questions linked to a form with the note. Remaining rows are unchanged. The links of the removed questions go with them (the cascade declared at s_form_question.go:13), and the other links keep their order. A failed statement changes nothing. |
| QuestionRepository.SurvivingSpec | src/internal/domain/entity/s_form_question.go:13 | The cascade keeps, in order, exactly the links that name no deleted question. |
| QuestionRepository.DeleteCascadeJoin | src/internal/domain/entity/s_form_question.go:13 | After a delete no link names a removed question. The form join over what is left shows nothing it did not show before, so re-creating a question does not restore its old links. |
| FormQuestions.BuildFailureMessage | src/internal/domain/usecase/get_questions_by_form_id_usecase.go:76-79 | The 555 message starts with the fixed prefix followed by the question id. |
| FormQuestions.RenderSpec | src/internal/domain/usecase/get_questions_by_form_id_usecase.go:33-57 | The first pass keeps, in order, exactly the rows that decode and whose raw type is not send-notification. Kept rows have their type upper-cased, and `Enabled` follows the mobile flag. |
| FormQuestions.RenderUpper | src/internal/domain/usecase/get_questions_by_form_id_usecase.go:48 | Every rendered type is upper case. |
| FormQuestions.RenderAll | src/internal/domain/usecase/get_questions_by_form_id_usecase.go:33-57 | The first-pass loop computes `Render`. |
| FormQuestions.ZeroStringFieldEmpty | src/internal/domain/usecase/get_questions_by_form_id_usecase.go:180-183 | The fresh struct's value is the empty string. |
| FormQuestions.CodeCountingValue | src/internal/domain/usecase/get_questions_by_form_id_usecase.go:150-177 | A generated code becomes the row's only attribute value; the rest of the row is kept. |
| FormQuestions.CodeCountingGeneratorFailure | src/internal/domain/usecase/get_questions_by_form_id_usecase.go:154-158 | A generator error is passed on unchanged. |
| FormQuestions.RandomizerValue | src/internal/domain/usecase/get_questions_by_form_id_usecase.go:179-202 | The new value is the old value followed by the token, with every other attribute cleared. |
| FormQuestions.CodeGenerator.CreateForQuestionWithId | src/internal/domain/usecase/get_questions_by_form_id_usecase.go:154 | One request is recorded, and the answer is the generator's answer to it. |
| FormQuestions.BuildCodeCountingQuestion | src/internal/domain/usecase/get_questions_by_form_id_usecase.go:150-177 | It makes exactly one generator request, and the result is that answer rebuilt. |
| FormQuestions.BuilderFaithful | src/internal/domain/usecase/get_questions_by_form_id_usecase.go:72-93 | Non-generated kinds are emitted unchanged. Generated kinds keep id, type, prompt, order, flag and enabled. |
| FormQuestions.AssembleHead | src/internal/domain/usecase/get_questions_by_form_id_usecase.go:59-94 | A successful pass emits the first recognised row and continues with the rest; an unrecognised first row is skipped. |
| FormQuestions.EmitRewrites | src/internal/domain/usecase/get_questions_by_form_id_usecase.go:72-93 | An emitted row rewrites its input. |
| FormQuestions.AbortCause | src/internal/domain/usecase/get_questions_by_form_id_usecase.go:64-89 | An abort is a 400 on a non-general kind, or a 555 naming a code-counting or randomizer row. |
| FormQuestions.AssembleOkGeneral | src/internal/domain/usecase/get_questions_by_form_id_usecase.go:59-69 | A successful pass saw only general kinds among recognised rows. |
| FormQuestions.AssembleOkRewrites | src/internal/domain/usecase/get_questions_by_form_id_usecase.go:59-94 | A successful pass emits one rewritten row per recognised row, in order. |
| FormQuestions.AssembleFailure | src/internal/domain/usecase/get_questions_by_form_id_usecase.go:64-89 | A failed pass names its cause: a recognised non-general row (400) or a failed build of a generated row (555). |
| FormQuestions.AssemblePlain | src/internal/domain/usecase/get_questions_by_form_id_usecase.go:59-94 | Without generated kinds, the pass succeeds iff all recognised kinds are general. It then emits the recognised rows unchanged and asks the generator nothing. |
| FormQuestions.AssembleStep | src/internal/domain/usecase/get_questions_by_form_id_usecase.go:59-94 | The pass unfolded once by the first row's step: skip, abort or emit. |
| FormQuestions.RunAssemble | src/internal/domain/usecase/get_questions_by_form_id_usecase.go:59-94 | The loop's accumulating form agrees with the pass. |
| FormQuestions.ClassifyRow | src/internal/domain/usecase/get_questions_by_form_id_usecase.go:60-93 | One row's step, with at most one generator request. |
| FormQuestions.AdvanceRow | src/internal/domain/usecase/get_questions_by_form_id_usecase.go:60-93 | One turn of the loop: the row's generator requests are recorded, and the loop's remaining work equals the pass advanced by that row. An abort ends it with the requests made so far. |
| FormQuestions.AssembleAll | src/internal/domain/usecase/get_questions_by_form_id_usecase.go:59-94 | The second-pass loop returns the pass's result and makes exactly its generator requests. |
| FormQuestions.GetQuestionByForm | src/internal/domain/usecase/get_questions_by_form_id_usecase.go:22-103 | A failed form query, row scan or iteration gives 400. Otherwise the result is the second pass over the first pass, carrying the form's password and name. |
| FormQuestions.GeneralOnlyMembers | src/internal/domain/usecase/get_questions_by_form_id_usecase.go:131-139 | The lenient pass keeps exactly the rows of recognised general kinds. |
| FormQuestions.GetQuestionsByForm | src/internal/domain/usecase/get_questions_by_form_id_usecase.go:105-148 | A failed form query, row scan or iteration gives no response. Otherwise the response holds the general rows that decode, in order. Nothing aborts and no generator or random call is made. |
| Sheets.SheetReader.Get | src/internal/domain/usecase/get_setting_message_usecase.go:36-39 | One read request is recorded, and the answer is the reader's answer to it. |
| Sheets.SheetWriter.Write | src/internal/domain/usecase/mark_todo_as_done_usecase.go:69-73 | One write request is recorded, and the answer is the writer's answer to it. |
| MarkTodo.FirstMatch | src/internal/domain/usecase/mark_todo_as_done_usecase.go:120-130 | It returns the index of the first non-empty row whose first cell is the id, with none earlier. The result is none exactly when no row matches. |
| MarkTodo.FindFirstRow | src/internal/domain/usecase/mark_todo_as_done_usecase.go:120-130 | It returns `startRow` plus the first match. Otherwise it returns 0 and the error naming the id. |
| MarkTodo.MarkAll | src/internal/domain/usecase/mark_todo_as_done_usecase.go:43-51 | Length and order are kept. Tasks with the index get the selected value, and all others are unchanged. |
| MarkTodo.LastMatch | src/internal/domain/usecase/mark_todo_as_done_usecase.go:42-47 | It returns the last task with the index, or the zero task when none has it. |
| MarkTodo.SelectTasks | src/internal/domain/usecase/mark_todo_as_done_usecase.go:42-51 | The loop computes the updated list and the completed task, taken before its update. |
| MarkTodo.CompletedTaskMarked | src/internal/domain/usecase/mark_todo_as_done_usecase.go:42-51 | The completed task is one of the tasks, and its updated copy is in the new list. Only `Selected` changes. |
| MarkTodo.CompletionRowNamesTask | src/internal/domain/usecase/mark_todo_as_done_usecase.go:56-70 | The completion row's first cell reads back as the task index. |
| MarkTodo.Column | src/internal/domain/usecase/mark_todo_as_done_usecase.go:61-68 | Cells are written as a column: one single-cell row each, in order. |
| MarkTodo.CompletionHistoryCells | src/internal/domain/usecase/mark_todo_as_done_usecase.go:81-95 | The history column has 14 cells: the shared head of ten, then name, due date, value and selection. |
| MarkTodo.LogHistoryCells | src/internal/domain/usecase/mark_todo_as_done_usecase.go:150-175 | It has 16 cells for the three known log types and 15 otherwise. The head and request fields are fixed, the log word is at 14, and the last cell is empty. |
| MarkTodo.LogTaskGuard | src/internal/domain/usecase/mark_todo_as_done_usecase.go:138-148 | It passes exactly for a found compose to-do with its history sheet set up. The missing to-do is reported first, the wrong type second. |
| MarkTodo.ToDoStore.Save | src/internal/domain/usecase/mark_todo_as_done_usecase.go:52 | The saved list is recorded. |
| MarkTodo.MarkToDoAsDoneUseCase.Execute | src/internal/domain/usecase/mark_todo_as_done_usecase.go:26-108 | A lookup or read error is returned with nothing changed. Otherwise the updated list is saved before the row search. A missing row returns its error without writing. The completion write's error is returned and stops the call. Otherwise the history is written and its error ignored. |
| MarkTodo.MarkToDoAsDoneUseCase.WriteCompletion | src/internal/domain/usecase/mark_todo_as_done_usecase.go:56-107 | With no row naming the task, the row-not-found error is returned and nothing is written. Otherwise the completion column goes to the first row naming it, counted from sheet row 12. Its error is returned and stops the call; otherwise the history column follows and its error is ignored. |
| MarkTodo.MarkToDoAsDoneUseCase.LogTask | src/internal/domain/usecase/mark_todo_as_done_usecase.go:132-184 | The lookup error comes first, then the guards in order, with no write before them. Then exactly one history write, whose error is returned. |
| SettingMessage.IdRun | src/internal/domain/usecase/get_setting_message_usecase.go:27 | It returns the maximal run of id characters at a position. |
| SettingMessage.FirstMatchFrom | src/internal/domain/usecase/get_setting_message_usecase.go:27-28 | It returns the first position at or after `i` where the expression matches. |
| SettingMessage.ExtractSpreadsheetId | src/internal/domain/usecase/get_setting_message_usecase.go:26-34 | There is no id exactly when no marker is followed by an id character. Otherwise the id is the maximal run after the leftmost such marker, non-empty and made of id characters. |
| SettingMessage.NoMatchInHost | src/internal/domain/usecase/get_setting_message_usecase.go:27 | No match starts inside the host part of a sheet address. |
| SettingMessage.IdRunIs | src/internal/domain/usecase/get_setting_message_usecase.go:27 | A delimited run of id characters is exactly what the greedy run takes. |
| SettingMessage.SheetUrlRoundTrip | src/internal/domain/usecase/mark_todo_as_done_usecase.go:91 | The sheet address the to-do history records gives back its id. |
| SettingMessage.RowFontSize | src/internal/domain/usecase/get_setting_message_usecase.go:57-64 | A row offers a font size exactly when cell 4 exists, is non-empty and parses to a nonzero integer. |
| SettingMessage.FontSize | src/internal/domain/usecase/get_setting_message_usecase.go:45-65 | It returns the first row's offer, with no earlier offer. It is none exactly when no row offers one. |
| SettingMessage.FoldRows | src/internal/domain/usecase/get_setting_message_usecase.go:45-66 | The loop computes the messages and the first font size. |
| SettingMessage.MessagesSpec | src/internal/domain/usecase/get_setting_message_usecase.go:49-55 | There is exactly one item per row of two or more cells, in row order, with description = cell 0 and message = cell 1. |
| SettingMessage.FontSizeSetOnce | src/internal/domain/usecase/get_setting_message_usecase.go:57 | Once set, later rows cannot change the font size. |
| SettingMessage.GetSettingMessage | src/internal/domain/usecase/get_setting_message_usecase.go:20-74 | A nil config, then a bad URL, fail with their messages and no read. Otherwise exactly one read of `Time_Message!K11:O12`. Its error is returned unchanged; otherwise the folded response. |
| UserEntity.UsernameClean | src/internal/domain/entity/s_user_entity.go:46 | The username has no surrounding white space, no capitals and no raw `<`, `>`, `"` or `'`. |
| UserEntity.UsernameRoundTrip | src/internal/domain/entity/s_user_entity.go:46 | Unescaping the username gives the trimmed, lower-cased input. |
| UserEntity.SUserEntity.BeforeCreate | src/internal/domain/entity/s_user_entity.go:33-49 | The id is replaced only when UUID generation succeeds, and that outcome alone is the returned error. A non-empty password is replaced only by a successful hash. The username is normalised, and nothing else changes. |

## Left out

- JSON text syntax.
  - Parsing is the parameter `parse: string -> Option<Json>`.
  - So it is not shown that a code containing `"` breaks the `{"value": "..."}` document built by concatenation.
- Go's reuse of already-decoded slice elements when a key repeats.
- Non-ASCII case folding and case mapping.
  - Key matching and `ToUpper`/`ToLower` act on ASCII letters only.
  - `TrimSpace` covers the Unicode White_Space set.
- Registry and response types.
  - The `value` package is not part of this model. Its lookups are a `Registry` of uninterpreted functions.
  - `response.QuestionAttributes` is a parameter `attrSchema` of the environment.
  - The entity files for to-do lists, tasks and devices are not part of this model. Only the fields the use cases touch are modelled.
- Random tokens.
  - `value.GetRandomString(8)` is the parameter `tokens`.
  - The token's length of 8 is not constrained.
- Database failures are one `dbOk` flag per statement.
  - The form query is the exception: its outcome tells a rejected query, a failed row scan and an iteration that breaks off apart (see Findings).
  - The to-do repository's lookups are functions of the QR code or id.
  - `Save`'s ignored error is not modelled.
- Storage ordering and other cascades.
  - `ORDER BY order` leaves ties to the database. `FormRowsSpec` states only sortedness and permutation.
  - The cascade from `s_form` to its links (s_form_question.go:12) is not modelled: none of the modelled operations deletes a form.
- QuestionRepository.QuestionStore.Create and QuestionRepository.QuestionStore.SaveQuestions: the returned rows carry zero-filled timestamps but keep the incoming primary key. The key the ORM copies back from the driver's last insert id is not modelled, because after an upsert it depends on the MySQL driver. The normaliser always produces `pk = 0`.
- Logging, and the unreachable fallback after the switch in `unmarshalQuestion` (question_repository.go:153-154).
- Type assertions on sheet cells.
  - Cells are strings.
  - The panics Go raises on a non-string cell in `findFirstRow` and in the setting-message fold are not modelled.
- The `cap(row)` tests in the setting-message fold are implied by the `len(row)` tests beside them, so only lengths are modelled.
- The regular-expression engine. The one expression used is modelled directly as a leftmost, greedy match.
- `UserConfig` and the user associations.
  - `SUserEntity` in s_user_entity.go declares no `UserConfig` field, yet get_setting_message_usecase.go:21 reads `user.UserConfig`. So the configuration is an `Option` parameter.
  - Roles, organizations, guardians and devices of `SUserEntity` are left out.
- Times.
  - `time.Now().Format(...)` is the formatted `now` string.
  - `Execute` formats the clock twice (mark_todo_as_done_usecase.go:63 and :82). The model uses one `now` for both writes, so the two stamps always agree.
  - The user's `Birthday`/`CreatedAt`/`UpdatedAt` are instants only checked to be unchanged.
- bcrypt salting. The hash outcome is a parameter of the call.

## Notes on the code versus its description

- **The randomizer value.** The source builds the code from a fresh struct's `Value`, which is always empty, plus the token. It then puts the row's existing value followed by that code into the response (get_questions_by_form_id_usecase.go:183-184). Nothing is written back, so each response shows the stored value with a fresh token appended. The model follows the code (`RandomizerValue`).
- **The spreadsheet id.** The expression takes the leftmost marker that is followed by at least one id character, not simply the first marker (get_setting_message_usecase.go:27-28). The model follows the expression (`ExtractSpreadsheetId`).
- **Which task is used.** `Execute` uses the last task with the index as the completed task, but writes to the first sheet row naming it. The model keeps both as written.

## Findings

| source | as written | input that shows it | evidently intended | confidence | as-written member | corrected member |
|---|---|---|---|---|---|---|
| src/internal/data/repository/question_repository.go:617-625 | `defer rows.Close()` is registered before the query error is checked. When the query fails, `Rows()` returns a nil cursor, and the deferred `Close` dereferences it, so the handler panics instead of returning the error. | A database that rejects the form query (outcome `QueryFails`). | Check the error first and return it, so the use cases answer 400 (`GetQuestionByForm`) or nothing (`GetQuestionsByForm`). | medium, not executed | QuestionRepository.FormQueryAsWritten, QuestionRepository.DeferredCloseOnFailedQuery | QuestionRepository.QuestionStore.GetQuestionsByFormId |
| src/internal/data/repository/question_repository.go:626-634 | The loop stops when `rows.Next()` returns false and never consults `rows.Err()`. The function then returns the rows read so far, together with the outer `err`, which is nil at that point. | An iteration that breaks off after `n` rows, fewer than the form has (outcome `StopsAfter(n)`). | Check `rows.Err()` after the loop and return it, so that a partial list is never shown as the whole form. | medium, not executed | QuestionRepository.FormQueryAsWritten, QuestionRepository.SilentTruncation | QuestionRepository.QuestionStore.GetQuestionsByFormId |
