# ttw — a verified model of the time-tracker's core

ttw is an Electron desktop time-tracker. Its main process calls an
"achievement" web API with a cached bearer token. It turns that API's error
replies into one message text. It drives two attendance portals (Jmotto and
Freee) in browser windows to punch in and out. It keeps the user's settings
in a JSON config file, and it converts Markdown files with pandoc. Its
renderer parses the dates and times the user types. It also shows a
notification timeline, a four-week calendar with daily icons and
per-project totals, a start/end work button, a page switcher and a clock.

This project models that core in Dafny and proves properties of the model.
Each module follows one source file:

| module | file | form |
|---|---|---|
| `Text` | JavaScript built-ins the core relies on | `split` with and without a limit, `join`, `trim`, `replace` of the first match, `Number.parseInt`, `('00' + n).slice(-2)`, string `<` |
| `TwUtility` | `src/main/tw/twUtility/twUtility.ts` | functions, plus a method for `range` |
| `DateEx` | `DateEx` in both `twUtility.ts` files | proleptic Gregorian dates as day numbers |
| `InputUtil` | `src/renderer/tw/twUtility/twUtility.ts` | the date and time input parsers |
| `Api`, `ApiGateway` | `src/main/achievement/api.ts` | `sendRequest`, `createApiError` and `handleApiError` as functions; `get`/`post` as methods over the token cache |
| `TokenHandler` | `src/main/achievement/tokenHandler.ts` | a class `TokenCache` over the module-level `tokens` record |
| `ConfigManager` | `src/main/configManager.ts` | a class `ConfigStore` with the config and the file, plus the singleton `Registry` |
| `MdConverter` | `src/main/mdConverter.ts` | pure option and command builders; `convert`/`convertToPdf` as methods over an environment |
| `Automation` | `src/main/automation.ts` | a class `AutomationState` with the two window handles and an event log |
| `AppSettings` | `src/renderer/appSettings.ts` | functions over the category and work-process lists |
| `Sorting`, `Notification` | `src/renderer/notification.ts` | the `notificationManager` closure as a class; the schedule list and its markup as functions and methods |
| `Calendar` | `src/renderer/calendar.ts` | a class `CalendarPage`; the header totals, board summary, icons and day list as functions with loop methods |
| `IndexPage` | `src/renderer/index.ts` | `startOrEndWork` as a function plus a class `WorkController`; `getHslColor`/`setMainColor` as functions |
| `PageManagement` | `src/renderer/page.ts` | a class `PageManager` |
| `Clock` | `src/renderer/clock.ts` | a class `ClockHands` |
| `Models`, `Wrappers` | `src/common/models.ts` | the shared records; `Option` and `Result` |

Clocks, the network, the file system, the browser and the DOM are
parameters. The current time is `now`, a day number or an `Instant` record.
A fetch is a `FetchOutcome`, and a write to the config file is a
`writeOk` flag. A portal's browser is a `Browser` record that says which
steps succeed. `new Date(text)` is an `instant` function from text to an
optional time.

Where the code and its documented intent disagree, the model
follows the code:
- `getActiveTokens` has no single-flight guard: two concurrent callers each send their own token request.
- A failed refresh raises its error. There is no fallback to the email and password.
- When no Freee button shows the target text, the code only logs. There is no error event.
- A portal window that does not close within ten polls throws `closeJmottoWindow failed` / `closeFreeeWindow failed` before the `try` block, so no `error` event is emitted. The failure surfaces only as the returned error.

For the four defects under "## Findings", a member models the code as
written and shows the defect. The classes, the option builder and the PDF step use the
corrected definition, except `deleteNotification`, whose reply is modelled as written. "## Left out" names, member by member, the source behaviour each corrected use replaces.

## Model

| member | source | states |
|---|---|---|
| Text.Pad2IsLastTwoDigits | src/main/tw/twUtility/twUtility.ts:69-70 | `('00' + n).slice(-2)` is the last two decimal digits of `n` |
| Text.Pad2Value | src/renderer/tw/twUtility/twUtility.ts:327 | the padded text has two digits, and its value is `n % 100` |
| Text.DigitsValueOfNatToString | src/renderer/tw/twUtility/twUtility.ts:248-255 | `Number(n.toString()) == n`: decimal printing and reading are inverse |
| Text.SplitShape | src/renderer/appSettings.ts:29 | `split` gives one more piece than there are separators; no piece contains a separator, and every character of a piece comes from the input |
| Text.SplitNoSeparator | src/renderer/appSettings.ts:21 | a text without separators splits into itself alone |
| Text.SplitFirstPiece | src/renderer/appSettings.ts:21 | the first piece is the longest separator-free prefix |
| Text.SplitLimit | src/renderer/tw/twUtility/twUtility.ts:241 | `split(re, n)` keeps at most `n` pieces and is a prefix of the unlimited split, and equal to it when that has at most `n` pieces |
| Text.JoinSplit | src/renderer/calendar.ts:68-70 | joining the pieces of a split with the same separator rebuilds the text |
| Text.TrimShape | src/renderer/appSettings.ts:31 | `trim` returns a slice of the input that neither starts nor ends with white space |
| Text.ReplaceFirst | src/main/mdConverter.ts:102 | `replace(pat, rep)` changes only the first occurrence; with no occurrence it returns the text unchanged |
| Text.IndexFrom | src/main/mdConverter.ts:102 | the search finds the first occurrence at or after `from`, and none before it |
| Text.LessIrreflexive | src/renderer/notification.ts:233-237 | string `<` is irreflexive |
| Text.LessTransitive | src/renderer/notification.ts:233-237 | string `<` is transitive |
| Text.LessTrichotomy | src/renderer/notification.ts:233-237 | of two strings, one is smaller or they are equal |
| Text.AtMostTotal | src/renderer/notification.ts:233-237 | `<=` on strings is total |
| Text.AtMostTransitive | src/renderer/notification.ts:233-237 | `<=` on strings is transitive |
| Text.LeadingDigits | src/renderer/notification.ts:279-280 | the leading digit run is a prefix of digits followed by a non-digit or the end |
| Text.ParseInt | src/renderer/notification.ts:279-280 | `Number.parseInt` gives a number exactly when, after leading space and a sign, the text starts with a digit |
| Text.ParseIntOfNatToString | src/renderer/notification.ts:279-280 | `parseInt` reads back any printed natural number |
| TwUtility.RemoveWhiteSpace | src/main/tw/twUtility/twUtility.ts:12 | removing all white space leaves nothing exactly when the text is blank |
| TwUtility.IsNullOrWhiteSpace | src/main/tw/twUtility/twUtility.ts:8-13 | true exactly for `null`/`undefined` and for blank text, so also for `""` |
| TwUtility.Range | src/main/tw/twUtility/twUtility.ts:4-6 | `range(from, to)` yields `to - from + 1` numbers starting at `from`, one apart, and nothing when `from > to` |
| TwUtility.EscapedLength | src/main/tw/twUtility/twUtility.ts:19-22 | escaping adds one backslash per regular-expression special character |
| TwUtility.EscapedAppend | src/main/tw/twUtility/twUtility.ts:19-22 | escaping works character by character: it distributes over concatenation |
| TwUtility.UnescapedEscaped | src/main/tw/twUtility/twUtility.ts:19-22 | removing the added backslashes returns the original text, so escaping is invertible and loses nothing |
| TwUtility.EscapedPlain | src/main/tw/twUtility/twUtility.ts:19-22 | a text without special characters is left unchanged |
| DateEx.ToDateStringParts | src/main/tw/twUtility/twUtility.ts:66-74 | `toDateString` of a date with a four-digit year is `yyyy-mm-dd`, and its three digit groups read back as year, month and day |
| DateEx.NextDay | src/main/tw/twUtility/twUtility.ts:101-104 | `addDays(1)` gives a valid date later than the original |
| DateEx.PrevDay | src/main/tw/twUtility/twUtility.ts:101-104 | `addDays(-1)` gives a valid date earlier than the original |
| DateEx.NextPrev | src/main/tw/twUtility/twUtility.ts:101-104 | one day forward and one back are inverse |
| DateEx.CivilOf | src/renderer/calendar.ts:234-241 | every day number denotes a valid calendar date |
| DateEx.CivilOfSucc | src/renderer/calendar.ts:236 | the next day number is the next calendar date (`setDate(getDate() + 1)`) |
| DateEx.Weekday | src/renderer/calendar.ts:223 | `getDay` is between 0 (Sunday) and 6 |
| InputUtil.PiecesAreDigits | src/renderer/tw/twUtility/twUtility.ts:241 | once the pattern test passes, every split piece is all digits |
| InputUtil.ClockText | src/renderer/tw/twUtility/twUtility.ts:327 | the output is `HH:MM`, passes the input pattern, and shows hours and minutes mod 100 |
| InputUtil.FormatToTimeString | src/renderer/tw/twUtility/twUtility.ts:298-328 | a result exists only for text of 1 to 5 digits and colons, and it is always `HH:MM` |
| InputUtil.ColonFreeTime | src/renderer/tw/twUtility/twUtility.ts:308-319 | without a colon, up to two digits are the hour, three or four are hour then minutes, and five are rejected |
| InputUtil.HourAndMinuteToken | src/renderer/tw/twUtility/twUtility.ts:312-314 | for three or four digits, the last two are the minutes and the rest the hour |
| InputUtil.TimeWithColon | src/renderer/tw/twUtility/twUtility.ts:303-324 | with a colon, the first two pieces are hour and minutes and anything after a second colon is ignored |
| InputUtil.TimeIdempotent | src/renderer/tw/twUtility/twUtility.ts:298-328 | formatting an `HH:MM` output again returns it unchanged |
| InputUtil.NoRangeCheck | src/renderer/tw/twUtility/twUtility.ts:327 | there is no range check: `"99:99"` is accepted as is |
| InputUtil.DigitsBelow100 | src/renderer/tw/twUtility/twUtility.ts:327 | two digits denote a value below 100 |
| InputUtil.TwoDigitText | src/renderer/tw/twUtility/twUtility.ts:327 | padding the value of two digits gives back those digits |
| InputUtil.ReadDate | src/renderer/tw/twUtility/twUtility.ts:241-274 | a shorthand entry keeps today's year |
| InputUtil.SetFullYear | src/renderer/tw/twUtility/twUtility.ts:283 | `setFullYear` gives a valid date of the new year; it keeps month and day unless they are 29 February of a year that is not a leap year |
| InputUtil.FormatToFullDateString | src/renderer/tw/twUtility/twUtility.ts:231-287 | a result exists only for text of 1 to 10 digits, `/` and `-`, and it is always the `yyyy-mm-dd` of a valid date |
| InputUtil.DateTokenLengthRejected | src/renderer/tw/twUtility/twUtility.ts:252-259 | a single run of 5, 6, 7, 9 or 10 digits is rejected |
| InputUtil.EightDigitDate | src/renderer/tw/twUtility/twUtility.ts:252-256 | eight digits are read as `yyyymmdd`, never as shorthand |
| InputUtil.DayOnlyDate | src/renderer/tw/twUtility/twUtility.ts:247-248 | one or two digits are a day of the current month and year |
| InputUtil.MonthDayDate | src/renderer/tw/twUtility/twUtility.ts:262-266 | two pieces are month and day of the current year |
| InputUtil.FullDateRoundTrip | src/renderer/tw/twUtility/twUtility.ts:267-286 | an output `yyyy-mm-dd` of a valid date with a four-digit year parses to itself |
| InputUtil.FullDateIdempotent | src/renderer/tw/twUtility/twUtility.ts:231-287 | formatting an output again returns it unchanged |
| InputUtil.DateAcceptedIffRoundTrips | src/renderer/tw/twUtility/twUtility.ts:276-279 | an entry is accepted exactly when `new Date(y, m - 1, d)` reads back the same year, month and day (no overflow to the next month) |
| InputUtil.LastYearNeverFuture | src/renderer/tw/twUtility/twUtility.ts:281-284 | with `useTheLastYear`, a shorthand date after today moves one year back and any other stays, so the result is never after today |
| Api.ItemTexts | src/main/achievement/api.ts:124 | one `Error Code: c\nMessage: m` text per detail, in order |
| Api.HandleApiError | src/main/achievement/api.ts:114-130 | a framework reply (no `errors` array, or a `traceId`) gives `Message: <title>`; a business reply gives the error message, a line break and the detail texts joined by line breaks |
| Api.ItemLines | src/main/achievement/api.ts:124 | each detail contributes two lines, at positions 2k and 2k+1: its `Error Code: ` line, then its `Message: ` line |
| Api.JoinItemTexts | src/main/achievement/api.ts:124 | joining the detail texts equals joining their separate lines |
| Api.BusinessMessageLines | src/main/achievement/api.ts:124-129 | split by line, a business message is the base message followed by each detail's code and message lines |
| Api.ErrorBody | src/main/achievement/api.ts:87-108 | with no content type the reply becomes one `unknown` (code 9) detail carrying the status and text; with one, the JSON body gets the status code; unreadable JSON is an error |
| Api.SendRequest | src/main/achievement/api.ts:66-85 | a failed fetch becomes the `network` (code 8) message; an OK reply becomes its JSON with the status code; any other status becomes the message of its error body |
| Api.NetworkErrorMessage | src/main/achievement/api.ts:69-74 | the exact text a failed fetch raises |
| Api.UnknownErrorMessage | src/main/achievement/api.ts:91-100 | the exact text of a failed reply without a content type |
| Api.SingleDetailMessage | src/main/achievement/api.ts:124-129 | one detail gives the base message and that detail's text |
| Api.StatusCodeNotInMessage | src/main/achievement/api.ts:104-107 | the status code stored in the body never changes the message |
| Api.ErrorMessagePrefix | src/main/achievement/api.ts:114-130 | every raised message starts with `Message: ` or with the base message and a line break |
| Api.AuthorizationHeader | src/main/achievement/api.ts:27 | the header is `Bearer ` plus the token when the token is a non-empty text, and empty otherwise |
| ApiGateway.BearerHeaderOfRequests | src/main/achievement/api.ts:20-49 | both request builders carry that Authorization header |
| ApiGateway.Get | src/main/achievement/api.ts:20-32 | with a usable cached token `get` sends exactly its GET with that token and returns the reply; when the token request cannot be built or its reply is an error, no GET is sent, the tokens are kept and that error is the result; after a good token reply the tokens are replaced and the GET carries the new access token; never more than two requests |
| ApiGateway.Post | src/main/achievement/api.ts:34-49 | the same for `post` with its JSON body: a token failure sends no POST and is the result, an API error reply is the result |
| TokenHandler.ChoosePath | src/main/achievement/tokenHandler.ts:32-57 | the cached tokens are used exactly when the access token and its expiry are set and now is strictly before it; otherwise a valid refresh token is used; otherwise the stored credentials |
| TokenHandler.TokensOf | src/main/achievement/tokenHandler.ts:58-61 | all four token fields are copied from the reply |
| TokenHandler.RequestFor | src/main/achievement/tokenHandler.ts:43-56 | a request is built exactly when the cache cannot be used |
| TokenHandler.FirstCallUsesCredentials | src/main/achievement/tokenHandler.ts:8-18 | with the initial empty tokens, the first call asks with the email and password |
| TokenHandler.ExpiryIsStrict | src/main/achievement/tokenHandler.ts:33-47 | a token that expires at this very instant is not used |
| TokenHandler.CachedStaysCached | src/main/achievement/tokenHandler.ts:33-39 | a token usable now was usable at every earlier time |
| TokenHandler.ReplyIsReused | src/main/achievement/tokenHandler.ts:58-64 | after a reply with an access token, later calls before its expiry send nothing |
| TokenHandler.TokenCache.constructor | src/main/achievement/tokenHandler.ts:8-18 | all four fields start as `null` |
| TokenHandler.TokenCache.GetActiveTokens | src/main/achievement/tokenHandler.ts:32-64 | nothing is sent on the cached path; otherwise exactly one refresh or token request; a reply replaces all four fields; a failure changes nothing and is raised |
| TokenHandler.TokenCache.GetToken | src/main/achievement/tokenHandler.ts:25-28 | returns the access token that `getActiveTokens` leaves in place |
| ConfigManager.BoundsOf | src/main/configManager.ts:154-173 | the stored bounds of the window, or `{x: 100, y: 100}` when there are none |
| ConfigManager.WithBounds | src/main/configManager.ts:175-189 | storing bounds succeeds exactly when the config has a `bounds` record (otherwise the property access throws) |
| ConfigManager.BoundsRoundTrip | src/main/configManager.ts:154-192 | after saving, `getBounds` returns the saved bounds for that window and the old ones for the others, and nothing else changes |
| ConfigManager.MaxId | src/main/configManager.ts:197 | the largest id of a non-empty list |
| ConfigManager.FindIndex | src/main/configManager.ts:202 | the first notification with the id, or none |
| ConfigManager.AddedShape | src/main/configManager.ts:195-199 | adding appends the notification with an id above every existing one, so the new id finds it |
| ConfigManager.Updated | src/main/configManager.ts:200-207 | an update succeeds exactly when the id is present |
| ConfigManager.UpdatedShape | src/main/configManager.ts:200-207 | it changes only the fields of that one entry and keeps every id |
| ConfigManager.Deleted | src/main/configManager.ts:214-220 | a delete happens exactly when the id is present |
| ConfigManager.DeletedShape | src/main/configManager.ts:214-222 | it removes exactly the first entry with that id and keeps the order of the rest |
| ConfigManager.DeleteReplyOf | src/main/configManager.ts:214-222 | the reply is the error object exactly when the id was found and the write failed; otherwise it is `undefined`, never a boolean |
| ConfigManager.InvokeOutcome | src/main/preload.ts:7-9 | `invoke` throws exactly when the reply carries an error; otherwise it returns the reply, `undefined` reading as false |
| ConfigManager.DeleteNeverSucceeds | src/main/configManager.ts:214-222 | as written the renderer never deletes locally: a successful delete replies `undefined`, which reads as false, and a failed write makes `invoke` throw (see Findings) |
| ConfigManager.IntendedDeleteReply | src/renderer/notification.ts:86-89 | the intended reply is success exactly when the id was found and saved |
| ConfigManager.IntendedDeleteReplyAgrees | src/renderer/notification.ts:86-89 | with the intended boolean reply `invoke` never throws, and the renderer deletes locally exactly when the id was removed and saved |
| ConfigManager.ConfigStore.constructor | src/main/configManager.ts:111-114 | the config is the stored file or the defaults |
| ConfigManager.ConfigStore.Persist | src/main/configManager.ts:246-255 | a successful write puts the config in the file; a failed one leaves the file and returns the error |
| ConfigManager.ConfigStore.GetBounds | src/main/configManager.ts:154-173 | `getBounds` reads the stored bounds or the default |
| ConfigManager.ConfigStore.SaveBounds | src/main/configManager.ts:175-192 | on success `getBounds` returns the new bounds and the config is written; with no `bounds` record nothing changes and an error is raised |
| ConfigManager.ConfigStore.SaveNotification | src/main/configManager.ts:194-212 | an add appends a notification with a fresh id and returns it; an update of a known id changes that entry; an unknown id changes nothing and raises |
| ConfigManager.ConfigStore.DeleteNotification | src/main/configManager.ts:214-222 | an unknown id changes nothing and replies `undefined`; a known one is removed, the list written on success, and the reply is the one the code returns (`DeleteReplyOf`) |
| ConfigManager.ConfigStore.SaveUserConfig | src/main/configManager.ts:122-147 | replaces the user settings and keeps work, comments, notifications and bounds |
| ConfigManager.ConfigStore.SaveAchievementConfig | src/main/configManager.ts:116-120 | replaces only the achievement email and password |
| ConfigManager.ConfigStore.SaveWork | src/main/configManager.ts:149-152 | replaces only the current work |
| ConfigManager.Registry.constructor | src/main/configManager.ts:92 | no instance before `initialize` |
| ConfigManager.Registry.Initialize | src/main/configManager.ts:98-101 | `initialize` installs a new manager over the loaded config |
| ConfigManager.Registry.GetInstance | src/main/configManager.ts:103-109 | `getInstance` raises `ConfigManger is not initialized yet.` before `initialize` and returns the installed manager after |
| MdConverter.Stamp | src/main/mdConverter.ts:119 | the temporary file name has no `T`, `Z`, `.`, `:` or `-`, and keeps every other character of the ISO time exactly as often as it occurs |
| MdConverter.StampAppend | src/main/mdConverter.ts:119 | the characters are removed one at a time, so the stamp of two texts is the stamps joined and what is kept stays in order |
| MdConverter.StampKeepsPlain | src/main/mdConverter.ts:119 | a text without those characters is its own stamp |
| MdConverter.OptionShapes | src/main/mdConverter.ts:83-129 | `html`, `slide` and `pdf` give their option sets, html and slide with the corrected output path; any other type raises `unknown document type passed. docType = [..]` |
| MdConverter.CreateOption | src/main/mdConverter.ts:83-129 | the method builds exactly those options (corrected output path) |
| MdConverter.WrittenOptionAgrees | src/main/mdConverter.ts:83-129 | the options as written fail exactly when the corrected ones do, and differ from them only in the html and slide output path, which is `replace('.md', '.html')` |
| MdConverter.CreateCommand | src/main/mdConverter.ts:131-166 | the method joins the chosen tokens with spaces |
| MdConverter.CommandOrder | src/main/mdConverter.ts:131-166 | the tokens appear in the fixed order command, `-f`, `-t`, `--template`, `--toc`, `-s`, `--self-contained`, `-o`, input |
| MdConverter.CommandEnds | src/main/mdConverter.ts:132-165 | the command starts with `pandoc ` and ends with a space and the input file |
| MdConverter.AlwaysRebasedAndStandalone | src/main/mdConverter.ts:84-94 | every built option rebases relative paths and is standalone |
| MdConverter.FlagsIffFields | src/main/mdConverter.ts:135-161 | each flag is in the command exactly when its option is set (template and output when truthy) |
| MdConverter.HtmlCommand | src/main/mdConverter.ts:97-106 | html uses the template, a table of contents, `--self-contained` iff embedded, and the corrected `.html` output path |
| MdConverter.SlideCommand | src/main/mdConverter.ts:107-113 | slides use revealjs, no template, no table of contents, and the corrected `.html` output path |
| MdConverter.OutputOverwritesPlainInput | src/main/mdConverter.ts:102 | when the path contains no `.md`, the output path is the input path (see Findings) |
| MdConverter.NotesTxtOverwritten | src/main/mdConverter.ts:97-106 | as written, converting `notes.txt` to html gives `-o notes.txt`, overwriting the input |
| MdConverter.NotesTxtCorrected | src/main/mdConverter.ts:97-106 | the corrected option writes `-o notes.txt.html` instead |
| MdConverter.IntendedOutputDiffers | src/main/mdConverter.ts:102 | the corrected output path always differs from the input and ends with the new extension |
| MdConverter.IntendedAgreesOnPlainNames | src/main/mdConverter.ts:102 | for a path whose only `.md` is its suffix, the corrected and the written path agree |
| MdConverter.NotesTxtPdfOverwritten | src/main/mdConverter.ts:183 | as written, the PDF of `notes.txt` is written to `notes.txt`, overwriting the input |
| MdConverter.PdfPathDiffers | src/main/mdConverter.ts:183 | the corrected PDF path always differs from the input and ends with `.pdf`, and agrees with the written one when the only `.md` is the suffix |
| MdConverter.ConvertToPdf | src/main/mdConverter.ts:44-69 | with a temporary directory, one pandoc command renders html and the PDF goes to the corrected path (`PdfPath`, see Findings); the result is true exactly when both steps succeed; the directory is removed when its name is not blank |
| MdConverter.Convert | src/main/mdConverter.ts:30-42 | html and slide run one pandoc command (corrected output path) and return exactly its success; pdf returns true exactly when a temporary directory exists, its one command succeeds and the PDF is rendered to the corrected path; an unknown type raises |
| Automation.JmottoClicksTargetLast | src/main/automation.ts:124-128 | the last Jmotto step clicks the start or end button named by `startOrEnd`, and no earlier step clicks either |
| Automation.JmottoTypesCredentials | src/main/automation.ts:95-99 | member id, user id and password go into their fields before the login click |
| Automation.FirstFailure | src/main/automation.ts:78-131 | the first failing step, with all steps before it succeeding |
| Automation.RunScript | src/main/automation.ts:78-131 | the steps run in order up to and including the first failure, or all of them |
| Automation.FirstFailureStays | src/main/automation.ts:78-131 | later steps cannot change where a script first failed |
| Automation.CloseWait | src/main/automation.ts:42-54 | the wait ends closed exactly when the window closed within nine sleeps, so the tenth poll throws; the `closed` hook has nulled the handle exactly when the window closed within the ten sleeps |
| Automation.FirstMatch | src/main/automation.ts:213-227 | the first button whose text is the target, or none |
| Automation.SelectButton | src/main/automation.ts:212-227 | the loop clicks exactly that first match |
| Automation.RunTryBlock | src/main/automation.ts:78-141 | the `try` block performs the script up to its first failing step and then emits the failure event; a Freee run that gets through clicks the first matching button and emits the failure event if that click fails |
| Automation.AtMostOneError | src/main/automation.ts:132-141 | a punch emits at most one `error` event, naming its function and `startOrEnd` |
| Automation.JmottoErrorIffStepFails | src/main/automation.ts:78-141 | Jmotto emits an error exactly when one of its ten steps fails; without one, its last action is the punch click |
| Automation.FreeeErrorWhenClickFails | src/main/automation.ts:208-245 | after a good login, Freee emits an error exactly when the matching button's click fails; with no match it only logs |
| Automation.AutomationState.constructor | src/main/automation.ts:13-14 | both windows start closed and no event is logged |
| Automation.AutomationState.OnClose | src/main/automation.ts:70-72 | the `close` hook saves the window's last bounds under its key, keeping the other window's, and writes the file when the write succeeds; with no `bounds` record the config is unchanged |
| Automation.ClosedConfigBounds | src/main/automation.ts:70-72 | after the hook the closed window's key holds its last bounds, every other key keeps its own, and nothing but the bounds changes |
| Automation.AutomationState.OnClosed | src/main/automation.ts:74-76 | the `closed` hook clears only that portal's handle |
| Automation.AutomationState.CloseExisting | src/main/automation.ts:42-54 | an open window is closed and waited for, and its close hook has saved its bounds (`ClosedConfig`) whether or not it closes in time; the wait fails after ten polls, and the handle is null exactly when the window closed within those ten sleeps, so also on a throw when it closed during the last one; with no window nothing changes |
| Automation.AutomationState.OpenAndRun | src/main/automation.ts:56-141 | the new 1000×800 window sits at the saved bounds, and the script's actions and error are logged |
| Automation.AutomationState.PunchIn | src/main/automation.ts:39-142 | a window that will not close raises `closeJmottoWindow failed`/`closeFreeeWindow failed` with no event and no action, though its close hook has already saved its bounds; the handle is then null when the window closed during the tenth sleep and kept otherwise; without a throw a window opens at the saved bounds, which are the old window's last ones when it had one, and the script runs |
| AppSettings.GetProjectName | src/renderer/appSettings.ts:16-22 | blank text gives `""`; otherwise the text before the first comma |
| AppSettings.SeparateBoard | src/renderer/appSettings.ts:24-34 | the project name and the trimmed rest joined by `, ` |
| AppSettings.BoardParts | src/renderer/appSettings.ts:29-33 | the first piece is the project name, the pieces rebuild the text, and text without commas has empty board information |
| AppSettings.BoardInfoTrimmed | src/renderer/appSettings.ts:31 | the board information neither starts nor ends with white space |
| AppSettings.FindCategory | src/renderer/appSettings.ts:37 | the first category with the id, or none |
| AppSettings.GetCategoryName | src/renderer/appSettings.ts:36-42 | the first matching category's name; an unknown id raises `invalid categoryId. id =[..]` |
| AppSettings.FindDetail | src/renderer/appSettings.ts:47-48 | the first detail with the id, or none |
| AppSettings.FindWorkProcess | src/renderer/appSettings.ts:44-57 | the first process holding the detail, and the first such detail in it |
| AppSettings.NameNotBlank | src/renderer/appSettings.ts:49-56 | `<process>-<detail>` is never blank, so the outer loop stops at the first hit |
| AppSettings.GetWorkProcessName | src/renderer/appSettings.ts:44-64 | the name of the first match, or `invalid workProcessDetailId. id =[..]` |
| AppSettings.FirstHolderFound | src/renderer/appSettings.ts:44-57 | the first holder and detail are the ones found |
| Sorting.InsertMultiset | src/renderer/notification.ts:233-237 | one insertion step adds exactly the element |
| Sorting.InsertSorted | src/renderer/notification.ts:233-237 | one insertion step keeps the list ordered by time |
| Sorting.SortCorrect | src/renderer/notification.ts:233-237 | the sort orders the schedules by time and is a permutation |
| Sorting.SortKeepsSorted | src/renderer/notification.ts:233-237 | an ordered list is left as it is |
| Sorting.InsertAtEnd | src/renderer/notification.ts:233-237 | an element no earlier than all others goes last |
| Notification.TargetMinute | src/renderer/notification.ts:278-280 | a target time needs an hour and a minute piece |
| Notification.RegisterTimers | src/renderer/notification.ts:277-301 | the loop registers the timers of the due notifications, numbering them from the next timer id |
| Notification.TimersForShape | src/renderer/notification.ts:277-301 | the timers belong to the due notifications, in order, with consecutive ids |
| Notification.DueIffLater | src/renderer/notification.ts:281-285 | a notification gets a timer exactly when its minute is later than now |
| Notification.FindById | src/renderer/notification.ts:305 | the first notification with the id, or none |
| Notification.FindTimer | src/renderer/notification.ts:308 | the first timer of the notification, or none |
| Notification.RemoveFound | src/renderer/notification.ts:305-306 | a known id removes exactly that entry |
| Notification.RemoveAbsentDropsLast | src/renderer/notification.ts:305-306 | an unknown id removes the last notification (`splice(-1, 1)`): the rest is kept in order and exactly that one goes |
| Notification.PastNotificationHasNoTimer | src/renderer/notification.ts:283-285 | a notification already past due when added gets no timer entry |
| Notification.UntimedRemoveLosesEntry | src/renderer/notification.ts:304-311 | as written, removing such a notification splices it out and then throws, so an update never re-adds it; the corrected remove takes it out without throwing (see Findings) |
| Notification.EightOClockAtNine | src/renderer/notification.ts:278-285 | `08:00` added at 09:00 gets no timer |
| Notification.ClockTargetMinute | src/renderer/notification.ts:278-280 | for a time `h:m` of digit strings, the timer aims at h hours and m minutes after midnight |
| Notification.ClockTimeGetsNoTimer | src/renderer/notification.ts:278-285 | a digit time `h:m` no later than the present minute gets no timer |
| Notification.IntendedRemoveKeepsOthers | src/renderer/notification.ts:304-311 | the corrected remove keeps every other notification and clears a timer only if one exists |
| Notification.IntendedAgreesWhenTimed | src/renderer/notification.ts:304-311 | when both entries exist, the corrected and the written remove agree |
| Notification.NotificationManager.constructor | src/renderer/notification.ts:270-272 | no notifications and no timers |
| Notification.NotificationManager.Add | src/renderer/notification.ts:274-302 | all notifications are appended, and timers only for the due ones |
| Notification.NotificationManager.Remove | src/renderer/notification.ts:304-311 | the corrected remove: the notification goes when present, and its timer is cleared and dropped when it has one (see Findings) |
| Notification.NotificationManager.AddNotifications | src/renderer/notification.ts:313-316 | `add` plus one changed event: the notifications appended, the due timers registered with ids from the next timer id, nothing cleared |
| Notification.NotificationManager.DeleteNotification | src/renderer/notification.ts:318-321 | the corrected remove (the entry, its timer, and that timer's id cleared when it has one), then one changed event; the next timer id is kept |
| Notification.NotificationManager.UpdateNotification | src/renderer/notification.ts:323-327 | with the corrected remove: the notification is removed, its timer cleared when it has one, and re-added last with a timer only if due, the next timer id advancing by that timer; then one changed event |
| Notification.NotifyDom | src/renderer/notification.ts:163-189 | `act`, `event` and `notify` give their paragraph markup; other types give `""`; a notify without id throws |
| Notification.ContainerHtml | src/renderer/notification.ts:67-71 | the loop concatenates the markup of every schedule and stops at the first error |
| Notification.ErrorPersists | src/renderer/notification.ts:67-71 | once the markup fails, it stays failed |
| Notification.OtherTypesInvisible | src/renderer/notification.ts:184-185 | a schedule of an unknown type adds nothing |
| Notification.WorkActs | src/renderer/notification.ts:195-210 | two schedules per work record |
| Notification.WorkActsAt | src/renderer/notification.ts:195-210 | record k gives schedules 2k and 2k+1 |
| Notification.WorkActsShape | src/renderer/notification.ts:195-210 | those are `<project> start` and `<project> end`, at `00:00` when the start time is empty |
| Notification.NotifySchedules | src/renderer/notification.ts:214-218 | every notification except id -1 becomes its notify schedule, and every schedule comes from such a notification |
| Notification.NotifySchedulesAppend | src/renderer/notification.ts:214-218 | `filter` then `map` work element by element: the schedules of two lists joined are the schedules of each, joined, so order and multiplicity are kept |
| Notification.NotifySchedulesSingle | src/renderer/notification.ts:214-218 | one notification gives exactly its schedule, or nothing for id -1 |
| Notification.AssembleSchedules | src/renderer/notification.ts:191-237 | the schedule list is sorted by time and is a permutation of the work acts, Jmotto events, notifications and the current work |
| Calendar.Average | src/renderer/calendar.ts:57-59 | the average is 0 with no work days, and otherwise times the day count gives the total hours |
| Calendar.WorkDaysBounds | src/renderer/calendar.ts:58 | the number of distinct dates is at most the records, and zero only for no records |
| Calendar.HoursOnAbsent | src/renderer/calendar.ts:95-99 | a date without records has no hours |
| Calendar.HoursOnOneDate | src/renderer/calendar.ts:95-99 | records all on one date sum to the total |
| Calendar.DailyTotals | src/renderer/calendar.ts:95-99 | the daily map has a key for each date worked, holding the summed hours |
| Calendar.KeysShape | src/renderer/calendar.ts:62-72 | the summary map has one key per board without repeats, and its keys are exactly the boards of the records |
| Calendar.BoardHoursAbsent | src/renderer/calendar.ts:62-72 | a board without records has no hours |
| Calendar.ProjectLabelShape | src/renderer/calendar.ts:68-70 | the label is the board detail without its last comma piece, and empty without a comma |
| Calendar.EntriesSnoc | src/renderer/calendar.ts:64-72 | one record adds its hours to its board, relabels it, or appends a new board last |
| Calendar.BuildWorkSummary | src/renderer/calendar.ts:62-72 | the loop builds exactly that map |
| Calendar.SummaryPerBoard | src/renderer/calendar.ts:62-72 | every record's board appears once, holding the sum of that board's hours |
| Calendar.Values | src/renderer/calendar.ts:74 | the values in key order |
| Calendar.SortByHours | src/renderer/calendar.ts:75 | the sort is a permutation |
| Calendar.SortByHoursSorted | src/renderer/calendar.ts:75 | it orders the summary by hours, largest first |
| Calendar.IconFor | src/renderer/calendar.ts:105-127 | no icon exactly when there is no record or the hours are below every threshold and negative; `maru` carries hours from 0 up to the smile threshold |
| Calendar.IconMonotone | src/renderer/calendar.ts:111-122 | with ascending thresholds, more hours never give a milder icon |
| Calendar.DaysArray | src/renderer/calendar.ts:234-241 | one day per date from start to end inclusive, in order |
| Calendar.DaysAscending | src/renderer/calendar.ts:236 | the days are strictly increasing dates |
| Calendar.CalendarWindow | src/renderer/calendar.ts:222-224 | the window starts on a Sunday, spans 56 days, and covers four weeks before and three after the target |
| Calendar.DayCells | src/renderer/calendar.ts:101-132 | one cell per day, in order |
| Calendar.CellIcon | src/renderer/calendar.ts:107-127 | a day without records has no icon; one with records gets the icon of its summed hours |
| Calendar.Positive | src/renderer/calendar.ts:188-191 | the detail view shows exactly the projects with positive hours |
| Calendar.PositiveNonIncreasing | src/renderer/calendar.ts:188-191 | and keeps them largest first |
| Calendar.CalendarPage.constructor | src/renderer/calendar.ts:28-143 | the page holds the total hours, the work days, the sorted summary (a permutation of the board totals) and one cell per day, each disabled exactly when after today, marked holiday exactly when listed, and with the icon of its summed hours or none |
| Calendar.CalendarPage.ShowWorkingHoursDetail | src/renderer/calendar.ts:182-206 | the rows are the projects with positive hours, in summary order |
| IndexPage.Lightness | src/renderer/index.ts:455-468 | the lightness is one of 59, 64, 69, 75 and 79 |
| IndexPage.LightnessBands | src/renderer/index.ts:456-465 | the hue bands of each lightness, both ways |
| IndexPage.MainColorChoice | src/renderer/index.ts:436-443 | the default color ignores the hue; otherwise `hsl(hue, 100%, L%)` |
| IndexPage.PunchInGuard | src/renderer/index.ts:240-253 | with punch-in on and incomplete Freee (checked first) or Jmotto settings, a warning is shown and nothing changes |
| IndexPage.PanelAlwaysCopied | src/renderer/index.ts:255-262 | past the guards, the panel's five fields are copied into the work record |
| IndexPage.StartTransition | src/renderer/index.ts:264-281 | starting sets working, zero hours, the start time and date, and calls `startWork` |
| IndexPage.EndGuards | src/renderer/index.ts:282-299 | ending stops exactly at a missing category, detail or board, with that warning, in that order |
| IndexPage.EndTransition | src/renderer/index.ts:301-324 | ending records the end time, the start date and the hours, less one exactly when the span covers lunch, and calls `endWork` |
| IndexPage.WorkController.constructor | src/renderer/index.ts:238 | holds the config it was given, with no warnings or calls |
| IndexPage.WorkController.Run | src/renderer/index.ts:235-328 | the click applies that transition: the new work, the warning, the API call, the button labels and the changed event |
| PageManagement.Added | src/renderer/page.ts:49-51 | `pageMap.set` keeps the names, or appends the new one |
| PageManagement.AddedReplaces | src/renderer/page.ts:49-51 | the name holds the new page, other pages stay, and names stay distinct |
| PageManagement.HideEach | src/renderer/page.ts:17-21 | one `hide` per page, in order |
| PageManagement.HideOthers | src/renderer/page.ts:28-39 | every page except the target ends inactive |
| PageManagement.HideCallsMatch | src/renderer/page.ts:28-39 | `hide` is called exactly on the active pages other than the target |
| PageManagement.PageManager.constructor | src/renderer/page.ts:10-15 | no pages |
| PageManagement.PageManager.AddPage | src/renderer/page.ts:49-51 | the pages after `addPage` |
| PageManagement.PageManager.HideAll | src/renderer/page.ts:17-21 | every page is hidden, in order |
| PageManagement.PageManager.TogglePage | src/renderer/page.ts:23-47 | the other active pages are hidden and the target toggled once; for an unknown target the `toggle` of `null` TypeError is caught after the hiding and goes to the dialog |
| PageManagement.HideOtherPages | src/renderer/page.ts:28-39 | the loop hides the active non-targets and finds the target |
| PageManagement.OnlyTargetActive | src/renderer/page.ts:28-41 | after toggling a known page, no other page is active |
| Clock.AngleBounds | src/renderer/clock.ts:29-33 | for a real reading, the hour hand is within one turn and the minute hand is on a 6-degree mark below 360 |
| Clock.TwelveHoursApart | src/renderer/clock.ts:29-32 | the hour hand reads the same twelve hours apart |
| Clock.HalfDegreePerMinute | src/renderer/clock.ts:32 | each minute turns the hour hand half a degree |
| Clock.ClockHands.constructor | src/renderer/clock.ts:5-6 | both hands start at 0 |
| Clock.ClockHands.Update | src/renderer/clock.ts:26-34 | `update` sets both hands from the hours mod 12 and the minutes |

## Left out

- I/O: network, files and the browser are parameters. `fetch` is a `FetchOutcome`, a config write is a `writeOk` flag, and browser steps are `Browser` records. Logging is left out everywhere.
- Api.SendRequest: the text of a JSON parse error is the stand-in `InvalidJson`, because the runtime's message is not part of the source.
- ApiGateway.Post: the body is a flat list of string pairs. `JSON.stringify` formatting is not modelled. `postFromData` is not part of this model: it posts `FormData` and is not used by the core.
- TokenHandler.TokenCache.GetActiveTokens: async interleaving is not modelled. Each call runs to completion, so concurrent callers (which the code does not serialize) are not represented.
- ConfigManager.ConfigStore.SaveNotification: requires a non-empty list when adding. With an empty list the code computes `Math.max()`, which is `-Infinity`, an id the integer model cannot hold.
- ConfigManager.ConfigStore: aliasing between the caller's objects and the stored config (including the shared `defaultConfig`) is not modelled. Values are copied. `loadConfig`'s file read and JSON parse are a `stored` parameter.
- Automation: sleeps, selector time-outs, the `pie.connect` set-up in `initialize`, and the fact that `main.ts` does not await the punch calls are left out. A throw inside the `close` hook is not modelled. A window that closes only after the tenth poll is nulled later by its `closed` hook; the model keeps its handle. `getProperty('textContent')` and `jsonValue()` on Freee's buttons always succeed in the model, so their failure, which the code turns into an `error` event before any click, is not represented.
- MdConverter.ConvertToPdf: requires docType `pdf`, as its only caller guarantees. The `finally` deletion is not awaited in the code, and the model treats it as done. The temp-directory `mkdir` at module load is left out. The PDF goes to `PdfPath`, the corrected path. The code's `replace('.md', '.pdf')` at src/main/mdConverter.ts:183 is `WrittenPdfPath`.
- Sorting.SortCorrect: stability is built in and is not proved. Characters are Unicode scalars, not UTF-16 code units.
- Calendar.SortByHours: the comparator never returns 0. The model is an insertion sort that keeps ties in input order, which an engine is not obliged to do.
- Calendar: `toFixed`, the percent bars, `typewriter`, the click handlers, `changeIcon`, `reload` and the HTML strings of the header are left out. `dt <= end` is compared as day numbers, which ignores the time of day. Hours are exact reals: the rounding of the IEEE double sums (`reduce`, the per-board and per-date totals) is not modelled, so a sum such as `0.3 + 0.6` that the code computes as `0.8999999999999999` is 0.9 here, which can change an icon threshold or the order of equal totals.
- Notification.TargetMinute: the delay is in whole minutes of the local day. Seconds, daylight-saving shifts and the `Date` range are ignored, and a NaN hour is treated like the JavaScript value it produces.
- Notification: the toast, its click handler, the editor, `activateCallback` and `reloadNotificationPage` are left out.
- IndexPage.WorkController.Run: the measured span (`Math.floor` of the millisecond distance) is a parameter, `measured`. `toISOString`, `toDateString` and `getHours` come from `Instant` records.
- IndexPage: `setIcon`/`getSVG`, the dialogs, `createConfigDialog` and the rest of the DOM wiring are left out. Hours are exact reals: the rounding of `measured - 1` as a double is not modelled.
- PageManagement: a page is reduced to its active flag. A page's own `toggle` failing, and the `sleep(500)` in callers, are left out.
- Clock: the `rotate(...)` style strings, `setInterval` and number formatting are left out.
- TwUtility: `sleep`, `isNumber`, `triggerEvent`, `removeAllChildNode`, `typewriter`, `htmlToElement`, the `RegExp` object returned by `escapedRegex` (its escaped source is modelled), `toDatetimeString`, `toTimeString`, `toLocalISOString`, `addMonths`, `addHours`, the `tryConvertTo*` input wrappers, and `addDays` as mutation of a `Date` object are left out.
- MdConverter.OptionFor: html and slide output paths use the corrected `IntendedOutputPath`. The code's `replace('.md', '.html')` changes the first `.md` anywhere and leaves a path without one as the input; `WrittenOption` models that.
- MdConverter.CreateOption: its result is the corrected option of `OptionFor`, not the one the code builds (see `WrittenOptionAgrees`).
- MdConverter.OptionShapes: states the shapes of the corrected options, so its output path is not the code's for a path with no `.md` or an inner one.
- MdConverter.HtmlCommand: the `-o` argument is the corrected path, not `replace('.md', '.html')`.
- MdConverter.SlideCommand: the `-o` argument is the corrected path, not `replace('.md', '.html')`.
- MdConverter.Convert: html, slide and pdf use the corrected output paths, so a dropped `notes.txt` is not overwritten as it is by the code.
- Notification.NotificationManager.Remove: the code splices the entry and then reads `notificationTimers[-1]` when the entry has no timer, which throws; the model does not throw and keeps the rest.
- Notification.NotificationManager.DeleteNotification: uses the corrected remove. In the code, deleting an entry without a timer throws after the splice, so no changed event fires.
- Notification.NotificationManager.UpdateNotification: uses the corrected remove. In the code, updating `08:00` at 09:00 (no timer) throws after the splice, so the entry is lost, not re-added, and no changed event fires.
- Text.ParseInt: reads decimal digits only. `Number.parseInt` with no radix, as src/renderer/notification.ts:279 calls it, also reads a `0x` prefix as hexadecimal (`0x1f` is 31, here 0).
- src/renderer/configManager.ts is not part of this model: it only forwards to the main process.

## Findings

| source | as written | input that shows it | evidently intended | confidence | as-written member | corrected member |
|---|---|---|---|---|---|---|
| src/main/configManager.ts:214-222 | `deleteNotification` returns `undefined` after a successful delete and the error object after a failed write; `invoke` in src/main/preload.ts:7-9 throws on that error, and the renderer (src/renderer/notification.ts:86-89) deletes locally only on a truthy reply | a known id whose write succeeds: the reply is `undefined`, so the renderer keeps the deleted entry; a failed write makes `invoke` throw, so it is not deleted locally either: it never is | reply `true` exactly when the id was found and saved | not executed | ConfigManager.DeleteNeverSucceeds | ConfigManager.IntendedDeleteReplyAgrees |
| src/main/mdConverter.ts:102 | the output path is `filePath.replace('.md', '.html')`, which changes the first `.md` anywhere and leaves a path without one unchanged | `notes.txt` converted to html gives `-o notes.txt`, so pandoc overwrites its input | the extension of the file is replaced, or the new one appended | not executed | MdConverter.NotesTxtOverwritten | MdConverter.IntendedOutputDiffers |
| src/main/mdConverter.ts:183 | the PDF path is `inputFilePath.replace('.md', '.pdf')`, which leaves a path without `.md` unchanged | `notes.txt` converted to pdf has its PDF written to `notes.txt`, overwriting the input | the extension replaced, or `.pdf` appended | not executed | MdConverter.NotesTxtPdfOverwritten | MdConverter.PdfPathDiffers |
| src/renderer/notification.ts:304-311 | `remove` splices the notification, then reads `notificationTimers[-1].timerId` when the notification has no timer, which throws | `08:00` added at 09:00 gets no timer; updating or deleting it then throws after the splice, so the entry is lost and no changed event fires | keep other entries and clear a timer only if one exists | not executed | Notification.UntimedRemoveLosesEntry | Notification.IntendedRemoveKeepsOthers |
