# Pipeline console rules, in Dafny

This project models the decision logic of a React admin console for a
pipeline-orchestration backend. The rendering and network code is not
modelled. What is modelled are the small deterministic rules the console
applies to what the server returns:

- the cron describer `defineCron` and the `formatDate` guard (`DateUtils`);
- the dashboard's folding of monitor statistics into counters (`Dashboard`);
- the token store with expiry, read against a clock given as a parameter
  (`TokenManager`);
- the schedule status toggle and the request interceptor that attaches the
  OAUTH-TOKEN header (`Api`);
- the runtime-variable list, the frequency resolution and the cron hint of
  the trigger form (`CreateEditTrigger`);
- the role mapping, the request payload, the role tags, the display name and
  the password rules of the user page (`Users`);
- the status colours and icons, cancel eligibility, summary counts and
  finished/duration cells of the run list (`PipelineRuns`);
- the "load more" pagination, status colours, end-time and duration guards
  and block label of the run history (`PipelineHistories`);
- the cells of the schedule table and the route a row click leads to
  (`PipelineSchedules`).

Three modules hold shared JavaScript semantics:

- `Text` covers `String.prototype.split` on one character (empty pieces
  kept), joining, ASCII `toLowerCase`, ECMAScript `trim`, and decimal
  printing.
- `Uri` covers `encodeURIComponent` / `decodeURIComponent` over UTF-8 percent
  escapes.
- `Wrappers` holds the `Option` type.

Every module is a set of pure functions over immutable datatypes. Where the
source reads the clock, storage or a library, the model takes that as a
parameter:

- `now` is the clock;
- `Store` is the browser storage, as a map;
- `render` and `span` are the date formatters;
- `decode` is `jwtDecode`.

Each operation is paired with something independent of its body, and a
lemma connects the two:

- the cron sentence with a decoder that reads the fields back;
- the counters with reference sums, plus the invariant that the total is the
  sum of the categories;
- the token store with a trace semantics: after any sequence of calls, a
  non-empty slot holds the last save not followed by a remove;
- the pagination with the invariant that the offset equals the number of rows
  held;
- the row path with `Split` and `decodeURIComponent`;
- the block label with a parser.

## Model

| member | source | states |
|---|---|---|
| DateUtils.FormatDate | src/utils/dateUtils.ts:3-11 | A missing or empty date gives "N/A". Otherwise the result is the date library's rendering, or "Invalid Date" when the library throws. |
| DateUtils.ParseCron | src/utils/dateUtils.ts:14-19 | The expression is accepted exactly when splitting on single spaces gives five pieces, and the fields are those pieces in order. |
| DateUtils.DefineCron | src/utils/dateUtils.ts:13-48 | The result is never empty. It is "Invalid cron expression" exactly when the split does not give five fields, and otherwise it starts with "Runs ". |
| DateUtils.CronInvalidIffNotFourSpaces | src/utils/dateUtils.ts:14-17 | An expression is rejected exactly when it does not contain four spaces. So "" and doubled spaces that bring the count to five are rejected, while an empty field between two spaces is accepted. |
| DateUtils.DescribeIsJoinedWords | src/utils/dateUtils.ts:21-47 | The sentence the clauses build is its word list joined by single spaces. |
| DateUtils.CronSentenceWords | src/utils/dateUtils.ts:19-47 | The sentence of a valid expression splits on spaces into exactly that word list, because no field contains a space. |
| DateUtils.ReadWordsOfSentenceWords | src/utils/dateUtils.ts:21-47 | Reading the word list back gives the fields the sentence shows. |
| DateUtils.CronSentenceRoundTrip | src/utils/dateUtils.ts:13-48 | Decoding the sentence gives back every field of the expression, with day-of-week read as "*" when day-of-month takes precedence. Decoding the invalid message gives nothing. |
| DateUtils.CronSameSentenceIffSameVisibleFields | src/utils/dateUtils.ts:19-47 | Two valid expressions get the same sentence exactly when they agree on minute, hour, day-of-month and month, and also on day-of-week when day-of-month is "*". No field is range-checked. |
| DateUtils.CronClosingClause | src/utils/dateUtils.ts:35-45 | The sentence ends in "every day" exactly when day-of-month, month and day-of-week are all "*". It ends in "in month <month>" exactly when month is not "*". |
| DateUtils.CronMinuteAndHourClauses | src/utils/dateUtils.ts:21-33 | The sentence starts with "Runs". The minute clause is "every minute" exactly when the minute is "*", and otherwise "at minute <field>" verbatim. The hour clause is "of every hour" or "of hour <field>" in the same way. |
| Dashboard.AddCounts | src/components/Dashboard.tsx:95-101 | Folding one type's counts adds each status's numeric sum to the type's category and to the total, and leaves the other categories alone. Total = sum of categories is preserved. |
| Dashboard.AddTypes | src/components/Dashboard.tsx:92-102 | Folding the types of one date adds each category's sum and the day's sum, and preserves the conservation invariant. |
| Dashboard.AddPipelines | src/components/Dashboard.tsx:90-103 | Folding the pipelines succeeds exactly when every pipeline has a date. It adds the sums over each pipeline's first date only. |
| Dashboard.CalculateStats | src/components/Dashboard.tsx:88-105 | The fold fails exactly when some pipeline has no date. Otherwise each category counter is the reference sum of that category's numeric counts on first dates, each total is the sum over all types, and total = streaming + integration + standard. |
| Dashboard.AddDailyCounts | src/components/Dashboard.tsx:112-116 | Each of the four known statuses gets the sum of its numeric counts. Other status keys and non-numbers are skipped. |
| Dashboard.AddDailyTypes | src/components/Dashboard.tsx:111-117 | Each counter grows by that status's sum over all the date's types. |
| Dashboard.AddDailyPipelines | src/components/Dashboard.tsx:109-118 | The fold succeeds exactly when every pipeline has a date, and each counter grows by the reference day sum. |
| Dashboard.CalculateDailyStats | src/components/Dashboard.tsx:107-120 | Each of the four counters is the sum of the numeric counts filed under that status on every pipeline's first date, whatever the type. The fold fails exactly when some pipeline has no date. |
| Dashboard.DailyStatsAreTotals | src/components/Dashboard.tsx:98-99 | When only the four known statuses carry numbers, the daily counters equal the totals of `calculateStats`. |
| Dashboard.InitialStats | src/components/Dashboard.tsx:38-43 | Every counter of every category and of the total starts at zero, so the total is the sum of the categories from the start. |
| Dashboard.EmptyPayloadIsZero | src/components/Dashboard.tsx:38-43 | An empty payload gives the all-zero initial statistics and all-zero daily counters. |
| Dashboard.PayloadSumsOnlyReadFirstDates | src/components/Dashboard.tsx:91 | The reference sums depend only on each pipeline's first date. |
| Dashboard.OnlyFirstDateCounts | src/components/Dashboard.tsx:91 | Two payloads that agree on every pipeline's first date give the same statistics and daily counters, whatever their other dates hold. |
| Dashboard.UnnamedTypesAreStandard | src/components/Dashboard.tsx:93-94 | Types named neither exactly "streaming" nor exactly "integration" contribute nothing to those two categories, and everything to standard. |
| Dashboard.UnnamedPayloadIsStandard | src/components/Dashboard.tsx:93-94 | The same holds across a whole payload. |
| Dashboard.OtherTypesCountAsStandard | src/components/Dashboard.tsx:93-94 | With no type named exactly "streaming" or "integration", the streaming and integration counters are zero and the standard counters equal the totals. |
| Dashboard.LoadDashboard | src/components/Dashboard.tsx:63-82 | The weekly entries follow the dates in order, one per date and labelled with it, each holding that date's daily counters. Today's statistics come from the last response. When any step throws, the initial view is kept. |
| TokenManager.SaveToken | src/services/tokenManager.ts:12-18 | The one fixed slot holds the token, expiring at now + expiresIn·1000, whatever it held before. No other key changes. |
| TokenManager.GetToken | src/services/tokenManager.ts:20-31 | A token is returned exactly when a record exists and now ≤ its expiry, and it is the stored token. When nothing is returned, the slot is empty afterwards. Other keys never change. |
| TokenManager.RemoveToken | src/services/tokenManager.ts:33-35 | The slot is emptied and other keys are kept. |
| TokenManager.IsTokenValid | src/services/tokenManager.ts:37-43 | Valid exactly when a record exists and now ≤ its expiry, so the boundary instant counts as valid. |
| TokenManager.ValidIffGetReturnsToken | src/services/tokenManager.ts:20-43 | At the same instant on the same store, the validity check holds exactly when `getToken` returns a token. |
| TokenManager.SavedTokenLivesUntilExpiry | src/services/tokenManager.ts:14-31 | Right after a save, a read returns the saved token at every instant up to its expiry, the expiry instant included, and nothing after it. |
| TokenManager.ExpiredReadEvicts | src/services/tokenManager.ts:25-27 | Reading an expired token deletes it. Afterwards the check fails and reads return nothing at every later instant. |
| TokenManager.RemovedTokenIsGone | src/services/tokenManager.ts:33-43 | After `removeToken`, nothing is returned and the check fails. |
| TokenManager.SlotHoldsLastLiveSave | src/services/tokenManager.ts:14-35 | Starting from an empty slot, after any sequence of calls, whatever the slot holds is the record of the last save not followed by a remove. |
| TokenManager.GetReturnsOnlyLiveToken | src/services/tokenManager.ts:20-31 | Starting from an empty slot, after any calls, a read that returns a token returns the token of that last save, and only at an instant up to its expiry. |
| Api.ToggleStatus | src/services/api.ts:76 | The new status is "inactive" exactly when the current one is exactly "active". Anything else, including "" and "inactive", gives "active". |
| Api.ToggleTwice | src/services/api.ts:76 | Toggling twice gives back the original exactly for "active" and "inactive". |
| Api.ToggleRequest | src/services/api.ts:75-84 | The PUT goes to "/pipeline_schedules/<id>" with a body carrying the id and the new status, and the new status differs from a current "active" or "inactive". The new status is "inactive" exactly when the current one is "active", and "active" for every other current status. |
| Api.InterceptRequest | src/services/api.ts:19-35 | A sessions request passes through with the store untouched. Any other request leaves the store as `getToken` does. URL, verb, params and every other header are unchanged. OAUTH-TOKEN is added or changed only on a non-sessions request with a valid token, and its value is what that token decodes to. |
| Api.HeaderSetIff | src/services/api.ts:21-28 | The header is set exactly when the request is not a sessions request and a present, non-empty token decodes to a non-empty value. Otherwise the configuration is returned unchanged. |
| CreateEditTrigger.AddDisabled | src/components/CreateEditTrigger.tsx:416 | The add button is disabled exactly when the uuid input or the value input is falsy, that is empty. |
| CreateEditTrigger.AddRuntimeVariable | src/components/CreateEditTrigger.tsx:88-94 | With both inputs filled, one pair is appended after the existing variables, even when its uuid is a duplicate, and both inputs are cleared. Otherwise nothing changes. |
| CreateEditTrigger.AddDisabledIffNoChange | src/components/CreateEditTrigger.tsx:416 | The add button is disabled exactly when pressing it would change nothing. |
| CreateEditTrigger.RemoveRuntimeVariable | src/components/CreateEditTrigger.tsx:96-98 | An index in range removes exactly that element and keeps the rest in order. An index out of range keeps the list. |
| CreateEditTrigger.RemoveUndoesAdd | src/components/CreateEditTrigger.tsx:88-98 | Removing the variable just added restores the previous list. |
| CreateEditTrigger.RemoveShifts | src/components/CreateEditTrigger.tsx:97 | The result is one shorter. Earlier elements stay in place and later ones move up by one. |
| CreateEditTrigger.FrequencyOptions | src/components/CreateEditTrigger.tsx:203-209 | The frequency menu offers seven pairwise distinct values, with "custom" last. |
| CreateEditTrigger.ResolveFrequency | src/components/CreateEditTrigger.tsx:68 | The submitted frequency is the custom cron expression when "custom" is chosen, and the chosen option otherwise. |
| CreateEditTrigger.ResolvedFrequencyIsScheduleOrCron | src/components/CreateEditTrigger.tsx:203-209 | For a menu option, what is submitted is a fixed option other than "custom", or the custom cron expression. |
| CreateEditTrigger.CronHint | src/components/CreateEditTrigger.tsx:147-154 | The hint is empty exactly when the field is empty. |
| CreateEditTrigger.CronHintIsDefinition | src/components/CreateEditTrigger.tsx:148-151 | A non-empty field shows `defineCron` of it, and the fallback prompt never appears. The hint is the invalid message exactly when the field does not contain four spaces. |
| Users.RoleId | src/components/Users.tsx:92-98 | The id is 0 exactly for names outside Owner, Admin, Editor and Viewer. Otherwise the id is the name's 1-based place in that list: Owner 1, Admin 2, Editor 3, Viewer 4. |
| Users.RoleIds | src/components/Users.tsx:91-99 | `role_ids` keeps the length and order of the selected roles, each mapped by the rule above. |
| Users.RoleNames | src/components/Users.tsx:209 | The edit form's roles are the user's role names, in order. |
| Users.EditedRolesKeepTheirIds | src/components/Users.tsx:91-99 | For roles whose ids follow the standard numbering, loading them into the form and saving gives back the same ids. |
| Users.RoleIdsDistinguishKnownRoles | src/components/Users.tsx:92-98 | Known roles get distinct ids. |
| Users.RoleColor | src/components/Users.tsx:140-153 | Gold exactly for Owner, red exactly for Admin, blue exactly for Editor, green exactly for Viewer, and "default" exactly for every other name. |
| Users.RoleColorsDistinct | src/components/Users.tsx:140-153 | Known roles get distinct colours. |
| Users.RoleDisplay | src/components/Users.tsx:155-162 | An owner shows a single gold "Owner" tag whatever the roles. Anyone else shows one tag per role, in order, named after it. |
| Users.TagsColouredByName | src/components/Users.tsx:155-162 | Every tag is coloured by its own name. |
| Users.DisplayName | src/components/Users.tsx:187 | The name is never empty. It is "N/A" exactly when the trimmed "first last" is empty, and whenever that trimmed string is not empty it is shown as it is. Missing names count as empty. |
| Users.DisplayBothNames | src/components/Users.tsx:187 | Two names with no surrounding whitespace show as "first last". |
| Users.DisplayNoName | src/components/Users.tsx:187 | No first and no last name shows "N/A". |
| Users.DisplayLastNameOnly | src/components/Users.tsx:187 | Only a last name shows that name, without the leading space. |
| Users.DisplayFirstNameOnly | src/components/Users.tsx:187 | Only a first name shows that name, without the trailing space. |
| Users.BuildUserRequest | src/components/Users.tsx:79-114 | An update is sent exactly when the edited id is set and non-zero. Names, username, email and both password fields are copied. A creation carries neither role ids nor the current password. An update carries the mapped role ids. The current password is sent exactly on an update of the signed-in user with a non-empty new password. |
| Users.EditingUserZeroCreates | src/components/Users.tsx:89 | Editing the user with id 0 sends a creation without role ids, because 0 is falsy. |
| Users.NoNewPasswordNoCurrentPassword | src/components/Users.tsx:104-106 | An empty new password never sends the current password. |
| Users.PasswordError | src/components/Users.tsx:330-333 | The password passes exactly when it is filled or the form is editing, and it has at least 6 characters whenever it is filled. The "required" message appears exactly when creating with an empty password, and a filled password shorter than 6 characters gets "Password must be at least 6 characters long". |
| Users.ConfirmError | src/components/Users.tsx:342-351 | The confirmation passes exactly when it is filled or the form is editing, and it equals the password whenever it is filled. The mismatch message appears exactly when a filled confirmation differs, and an empty confirmation when creating gets "Please confirm the password!". |
| Users.AcceptedCreationHasMatchingPasswords | src/components/Users.tsx:111-113 | A creation form that passes both rules sends a password of at least 6 characters and an equal confirmation. |
| Users.EditingIsNoStricter | src/components/Users.tsx:330-351 | Whatever passes when creating also passes when editing. |
| PipelineRuns.StatusColor | src/components/PipelineRuns.tsx:89-97 | Matched on the lower-cased status: completed gives success, failed error, running processing, initial warning, and anything else default. Each is stated both ways. |
| PipelineRuns.StatusIcon | src/components/PipelineRuns.tsx:99-107 | Matched on the lower-cased status: the check icon exactly for completed, the cross exactly for failed, the spinning sync exactly for running, the clock exactly for initial, and the question mark exactly for anything else. |
| PipelineRuns.ColorAndIconAgree | src/components/PipelineRuns.tsx:89-107 | Two statuses share a colour exactly when they share an icon, so both split statuses into the same five classes. |
| PipelineRuns.ColorIgnoresCase | src/components/PipelineRuns.tsx:90 | A status is coloured and drawn as its lower-cased form is. |
| PipelineRuns.CanCancel | src/components/PipelineRuns.tsx:224 | Cancel is offered exactly for the statuses drawn with the sync or the clock icon, that is running or initial in any letter case. |
| PipelineRuns.CancelIffActiveColor | src/components/PipelineRuns.tsx:224 | Cancel is offered exactly when the colour is processing or warning, that is for running or initial in any letter case. |
| PipelineRuns.CountStatus | src/components/PipelineRuns.tsx:316 | The count of runs with a given lower-cased status never exceeds the number of runs. |
| PipelineRuns.SuccessfulAndFailedDisjoint | src/components/PipelineRuns.tsx:316-324 | Successful plus failed never exceeds the number of runs. |
| PipelineRuns.Summarize | src/components/PipelineRuns.tsx:309-324 | Total is the number of runs. Successful and failed are the counts with lower-cased status completed and failed. Successful + failed ≤ total. |
| PipelineRuns.FinishedCell | src/components/PipelineRuns.tsx:205 | "-" exactly when there is no completion time; otherwise the formatted time. |
| PipelineRuns.DurationEnd | src/components/PipelineRuns.tsx:211-213 | The duration runs to the completion time when there is one, and to the present instant otherwise. |
| PipelineRuns.FinishedDashIffDurationToNow | src/components/PipelineRuns.tsx:281-286 | The finished cell shows "-" exactly when the duration is measured to the present instant. |
| PipelineRuns.ToggleArgument | src/components/PipelineRuns.tsx:113 | The route's status is passed, and a missing one is passed as "". |
| PipelineRuns.TriggerLabel | src/components/PipelineRuns.tsx:334 | "Disable Trigger" exactly when the status is "active"; "Enable Trigger" otherwise. |
| PipelineRuns.LabelMatchesToggle | src/components/PipelineRuns.tsx:113 | The tooltip reads "Disable Trigger" exactly when the toggle sends "inactive". A missing status toggles to "active". |
| PipelineHistories.FetchData | src/components/pipeline-histories.tsx:50-76 | The request carries the offset as it was when the call began. A page received is appended (load more) or replaces the rows. `hasMore` holds exactly when the page has 30 rows, and the offset advances by the page length. A failure keeps the state left by the reset. |
| PipelineHistories.FetchKeepsOffsetAtRowCount | src/components/pipeline-histories.tsx:64-70 | When the offset equals the number of rows held, every fetch keeps it so. Load more only adds rows after those shown and asks for the next row. |
| PipelineHistories.ReplayKeepsOffsetAtRowCount | src/components/pipeline-histories.tsx:50-76 | From the initial state, after any sequence of fetches, the offset equals the number of rows held. |
| PipelineHistories.FirstFetchStartsAtZero | src/components/pipeline-histories.tsx:59 | The first fetch asks for offset 0. |
| PipelineHistories.StatusColor | src/components/pipeline-histories.tsx:86-99 | Matched on the lower-cased status: completed gives success, failed error, running processing, cancelled warning, and anything else default. Each is stated both ways. |
| PipelineHistories.StatusIcon | src/components/pipeline-histories.tsx:101-114 | Matched on the lower-cased status: the check icon exactly for completed, the cross exactly for failed, the spinning sync exactly for running, and the clock for every other status, cancelled included; the question mark never appears. |
| PipelineHistories.ColorDeterminesIcon | src/components/pipeline-histories.tsx:86-114 | The colour determines the icon. The clock icon covers exactly the warning and default colours. |
| PipelineHistories.EndTimeCell | src/components/pipeline-histories.tsx:201 | "-" without a completion time; otherwise the formatted time. |
| PipelineHistories.DurationCell | src/components/pipeline-histories.tsx:206-212 | "-" unless both start and completion times are present; otherwise the span between them. |
| PipelineHistories.NoEndNoDuration | src/components/pipeline-histories.tsx:201-212 | A row without an end time has no duration. A row with an end time but no start time shows the end time and no duration. |
| PipelineHistories.BlockLabel | src/components/pipeline-histories.tsx:135 | The label starts with a digit, holds only digits and "/" before its end, and ends in " blocks". |
| PipelineHistories.BlockLabelRoundTrip | src/components/pipeline-histories.tsx:135 | Both counts can be read back from "<completed>/<total> blocks". |
| PipelineSchedules.LastRunColor | src/components/PipelineSchedules.tsx:72-83 | Case-sensitive: completed gives success, failed error, running info, and anything else warning, including a missing status. Each is stated both ways. |
| PipelineSchedules.LastRunColorIsCaseSensitive | src/components/PipelineSchedules.tsx:36 | A completed status in other letter case is a warning here but a success on the run list. "success", a status the schedule type declares, is a warning too. |
| PipelineSchedules.NotAvailableChipIsWarning | src/components/PipelineSchedules.tsx:200-201 | A chip reading "N/A" is a warning chip. |
| PipelineSchedules.OrNotAvailable | src/components/PipelineSchedules.tsx:183-200 | The interval cell (line 183) and the last-run chip (line 200) show the field as written, or "N/A" when it is missing or empty, so neither is ever blank. |
| PipelineSchedules.CronCaption | src/components/PipelineSchedules.tsx:186 | The interval's `defineCron` sentence, or "N/A" when there is no interval. |
| PipelineSchedules.CronCaptionCases | src/components/PipelineSchedules.tsx:186 | The caption is "N/A" exactly when there is no interval. A present interval reads as invalid exactly when it does not contain four spaces. |
| PipelineSchedules.StatusChipColor | src/components/PipelineSchedules.tsx:192 | Green exactly for "active"; blue otherwise. |
| PipelineSchedules.GreenChipIffToggleDeactivates | src/components/PipelineSchedules.tsx:192 | The chip is green exactly for the schedules the toggle would deactivate. |
| PipelineSchedules.DateCell | src/components/PipelineSchedules.tsx:196-198 | "N/A" without a date; otherwise `formatDate` of it. |
| PipelineSchedules.DateCellIsFormatDate | src/components/PipelineSchedules.tsx:196-198 | The row's guard adds nothing to `formatDate`'s own. |
| PipelineSchedules.RowPathIsJoin | src/components/PipelineSchedules.tsx:94-96 | The route is its seven segments joined by "/". |
| PipelineSchedules.RowPathSegments | src/components/PipelineSchedules.tsx:94-96 | When the schedule id, token and status contain no "/", the route splits into "", "pipelines", the schedule id, "runs", the encoded name, token and status, in that order. The name takes one segment whatever it contains, and decoding that segment gives it back. |
| Text.Split | src/utils/dateUtils.ts:14 | There is always at least one piece, and no piece contains the separator. |
| Text.SplitLength | src/utils/dateUtils.ts:14-15 | The number of pieces is one more than the number of separators. |
| Text.JoinSplit | src/utils/dateUtils.ts:14 | Joining the pieces with the separator gives back the string. |
| Text.SplitJoin | src/components/PipelineSchedules.tsx:95 | Splitting a join of separator-free pieces gives back the pieces. |
| Text.Lower | src/components/PipelineRuns.tsx:90 | Same length; each character is lowered. |
| Text.LowerIdempotent | src/components/PipelineRuns.tsx:90 | Lowering twice is lowering once. |
| Text.Trim | src/components/Users.tsx:187 | The result is the input without its leading and trailing whitespace, and it neither starts nor ends with whitespace. |
| Text.TrimUntouched | src/components/Users.tsx:187 | A string with no whitespace at either end is unchanged by trimming. |
| Text.NatToDecimal | src/components/pipeline-histories.tsx:135 | At least one digit, and no leading zero except for 0 itself. |
| Text.DecimalRoundTrip | src/components/pipeline-histories.tsx:135 | Parsing the decimal form gives back the number. |
| Uri.Utf8RoundTrip | src/components/PipelineSchedules.tsx:95 | Decoding the UTF-8 bytes of a character gives it back, and the lead byte announces the sequence length. |
| Uri.EncodeUriComponent | src/components/PipelineSchedules.tsx:95 | Encoding never shortens the string. |
| Uri.UriRoundTrip | src/components/PipelineSchedules.tsx:95 | `decodeURIComponent` of `encodeURIComponent(s)` gives back s. |
| Uri.EncodeInjective | src/components/PipelineSchedules.tsx:95 | Different names give different encodings. |
| Uri.EncodedAlphabet | src/components/PipelineSchedules.tsx:95 | An encoding contains only unreserved characters, "%" and hex digits, and never "/". |
| Uri.EncodeIdentityIffUnreserved | src/components/PipelineSchedules.tsx:95 | Encoding leaves a name unchanged exactly when all of its characters are unreserved. |

## Left out

- Rendering, styling, animation, charts and layout of every page. The page
  title and back-button context, routing and `ProtectedRoute`, `App`,
  `Login`, `Layout`, `Pipelines` and `Map` are also left out: they only wire
  state through React or draw it.
- Network calls, `Promise.all`, async sequencing and error toasts. Server
  responses are inputs. A failed request is `None` (pagination) or leaves the
  initial view (dashboard).
- The date libraries (`parseISO`, `format`, `subDays`, `formatDuration`,
  `formatDateWithTimezone`) are the parameters `render` and `span`. Building
  the list of seven dates on the dashboard is left to the caller of
  `LoadDashboard`.
- PipelineHistories.DurationCell: `span` stands for the history page's own
  formatter, `dayjs.duration` of the difference written as
  "<hours>h <minutes>m <seconds>s" (src/components/pipeline-histories.tsx:208-209).
  Its hours wrap at 24, so whole days are dropped from the text; the model
  leaves the formatter uninterpreted and does not state that wrap.
- Dashboard.CalculateStats: counts are modelled as integers. JSON numbers
  may be fractional, and floating-point sums (with their rounding) are not
  modelled; the same holds for Dashboard.CalculateDailyStats.
- `jwtDecode` inside `decodeToken` (src/services/tokenManager.ts:45-52) is the
  parameter `decode`: `None` stands for null or a thrown error.
- Browser storage and JSON (de)serialisation are a map from keys to records.
  `parseInt` of `expiresIn` is left out; it is a natural number.
- Dashboard.CalculateStats: requires every numeric count on a first date to
  sit under one of the four known statuses. An unknown status would add to
  an absent counter and write NaN into the result, which is not modelled.
- Dashboard.LoadDashboard: requires the same of the last response, whose
  first dates give today's statistics through `calculateStats`.
- The api key query parameter of the toggle request, read from the
  environment, is left out of `Api.ToggleRequest`.
- Text.Lower: lower-cases ASCII letters only. The status words compared
  against are ASCII. The only non-ASCII characters whose lower-case form
  holds an ASCII letter are U+212A (Kelvin sign, to "k", which none of those
  words contain) and U+0130 (to "i" followed by a combining dot, which no
  status word contains either), so no status compares differently.
- Users.PasswordError: states each rule's own verdict. The order in which the
  form library reports several failing rules is left out, except that
  "required" comes first.
- Uri.EncodeUriComponent: lone surrogate halves cannot occur in a Dafny
  string, so the URIError `encodeURIComponent` throws on them is left out.
- PipelineHistories.FetchData: models one call at a time. Overlapping fetches
  and React's batching of state updates are left out. The request offset is
  the value captured when the call began, before the reset, as in the source.
  The page only makes a plain fetch at mount, when that offset is 0.
- The rest of `handleSubmit` in CreateEditTrigger (logging the form) and the
  time-out, SLA and start-date fields are left out; only the frequency
  resolution decides anything.
- User deletion, user list loading and pipeline-run cancellation requests
  are left out: they are network calls with no rule of their own.
