# Hack1 sales and weekly-report service, modelled in Dafny

Hack1 is a Spring service for recording the sales of a chain of branches and
for mailing weekly summaries of them. This project models its core as pure
Dafny functions over immutable data, and proves what each operation
promises:

- **Sales** (`sales_service.dfy`, `aggregation.dfy`): creating, reading,
  updating and deleting sales under the CENTRAL/BRANCH role rules, the
  paginated listing, and the aggregation of a period (totals, units per sku,
  revenue per branch, top sku and top branch).
- **Weekly summaries** (`sales_controller.dfy`, `report_listener.dfy`,
  `summary.dfy`, `reports_controller.dfy`): the request endpoint that stores
  a PROCESSING report and publishes an event, the asynchronous job that
  aggregates, picks the LLM's text or the template summary, marks the report
  DONE or FAILED and mails it, the validity check on summaries, the template
  with its 120-word truncation, and reading a report back.
- **LLM client** (`github_models.dfy`): how the token, model id and url are
  taken from properties and then a `.env` file, the chat request it sends,
  and how the summary text is found in the response.
- **Security and accounts** (`jwt_filter.dfy`, `auth_service.dfy`): the
  bearer-token filter and the controllers' readers of the current user, role
  and branch; registration and login.
- **Shared pieces**: entities and their pre-persist hooks (`entities.dfy`),
  request validation (`validation.dfy`), the exception-to-status mapping
  (`errors.dfy`), and the Java string, `split("\\s+")` and number-formatting
  semantics the rest relies on (`java_string.dfy`, `words.dfy`,
  `numerals.dfy`).

Conventions. Java `null` is `Option.None`. A thrown exception is
`Result.Err` with its kind (the handler's status) and message. Repositories
are values: the sales and users tables are sequences in insertion order, and
report requests are a map from id to row. A save returns the new table.
Time is `Instant` (seconds since the epoch, an `int`), and a `LocalDate` is a
day number. Money is integer cents: a price of 1.99 is 199. The clock, UUIDs,
the password encoder, the token issuer, the JWT verifier, `Instant.parse`,
`LocalDate.toString`, the HTTP exchange and the mail server are all
parameters of the operations that use them.

## Model

| member | source | states |
|---|---|---|
| Entities.RoleValueOf | Hack1/src/main/java/org/ide/hack1/service/auth/AuthService.java:45-50 | `Role.valueOf`: only the exact names `CENTRAL` and `BRANCH` give a role, and the role given is the one with that name; null and any other text give the "invalid role" case |
| Entities.RoleValueOfName | Hack1/src/main/java/org/ide/hack1/service/auth/AuthService.java:45-50 | every role's name reads back as that role |
| Entities.StatusNameInjective | Hack1/src/main/java/org/ide/hack1/entity/ReportRequest.java:72-76 | the three report states have three different names |
| Entities.GeneratedId | Hack1/src/main/java/org/ide/hack1/entity/Sale.java:49 | a generated id is not blank, starts with its prefix and has no '-' after it; `Entities.GeneratedIdInjective` adds that distinct dash-free uuids give distinct ids |
| Entities.GeneratedIdInjective | Hack1/src/main/java/org/ide/hack1/entity/Sale.java:49 | for a dash-free uuid the id is the prefix followed by the uuid, so two different uuids give two different ids |
| Entities.FillId | Hack1/src/main/java/org/ide/hack1/entity/Sale.java:48-50 | a null or blank id becomes the generated id for the prefix; any other id is kept; the result is never blank |
| Entities.FillMissing | Hack1/src/main/java/org/ide/hack1/entity/Sale.java:51-53 | a missing value becomes the default; a present value is kept |
| Entities.SalePrePersist | Hack1/src/main/java/org/ide/hack1/entity/Sale.java:46-54 | a null or blank id is replaced by a generated `s_` id, a missing creation time by now; an id already set, a time already set and every other field are kept |
| Entities.SalePrePersistIdempotent | Hack1/src/main/java/org/ide/hack1/entity/Sale.java:46-54 | a second pre-persist changes nothing |
| Entities.UserPrePersist | Hack1/src/main/java/org/ide/hack1/entity/User.java:48-56 | the same rule for users with the `u_` prefix |
| Entities.UserPrePersistIdempotent | Hack1/src/main/java/org/ide/hack1/entity/User.java:48-56 | a second pre-persist changes nothing |
| Entities.ReportPrePersist | Hack1/src/main/java/org/ide/hack1/entity/ReportRequest.java:59-70 | a `req_` id, the request time and the status PROCESSING are filled in only where missing |
| Entities.ReportPrePersistIdempotent | Hack1/src/main/java/org/ide/hack1/entity/ReportRequest.java:59-70 | a second pre-persist changes nothing |
| Errors.Handle | Hack1/src/main/java/org/ide/hack1/exception/GlobalExceptionHandler.java:14-48 | each exception kind gets its own status, whose code names it: 400, 401, 403, 404, 409, and 500 for every other exception (and only for those); message and path are passed through |
| Errors.HandleSeparatesKinds | Hack1/src/main/java/org/ide/hack1/exception/GlobalExceptionHandler.java:14-48 | two different exception kinds never share a status |
| Validation.SaleRequestViolations | Hack1/src/main/java/org/ide/hack1/dto/sales/SaleRequest.java:13-26 | no violation exactly when the request is valid; each field is named exactly when its own constraint fails: sku and branch when not `@NotBlank` (present, and not empty after `trim()`), units < 1, a price that is not positive, a missing soldAt |
| Validation.RegisterRequestViolations | Hack1/src/main/java/org/ide/hack1/dto/auth/RegisterRequest.java:12-29 | no violation exactly when the request is valid; each field is named exactly when its own constraint fails: the username rule, a `@NotBlank` email, a `@NotBlank` password of at least 8 characters, a role other than `CENTRAL` or `BRANCH` |
| Validation.NotBlankFieldIff | Hack1/src/main/java/org/ide/hack1/dto/sales/SaleRequest.java:13 | `@NotBlank` holds exactly for a present value with some character above U+0020 |
| Validation.NotBlankFieldIsNotIsBlank | Hack1/src/main/java/org/ide/hack1/dto/sales/SaleRequest.java:13 | `@NotBlank` is not `isBlank()`: an em space passes it and a U+0001 fails it |
| Validation.ValidUsernameHasNoWhitespace | Hack1/src/main/java/org/ide/hack1/dto/auth/RegisterRequest.java:12-15 | a valid username has no whitespace, so it is always a single word |
| JavaString.Trim | Hack1/src/main/java/org/ide/hack1/event/Listeners/ReportEventlisteners.java:118 | `trim()`: the result occurs in the input at some position, everything cut before and after it is a character <= U+0020, it has no such character at either end, and it is empty only when the input is all such characters |
| JavaString.TrimIdempotent | Hack1/src/main/java/org/ide/hack1/client/githubmodels/GithubModelsClient.java:150 | trimming twice is trimming once |
| JavaString.TrimEmptyIff | Hack1/src/main/java/org/ide/hack1/client/githubmodels/GithubModelsClient.java:150 | `trim()` gives the empty string exactly when every character is at most U+0020 |
| JavaString.ContainsIffOccurs | Hack1/src/main/java/org/ide/hack1/event/Listeners/ReportEventlisteners.java:123-129 | `contains` holds exactly when the text occurs at some index |
| JavaString.IndexOf | Hack1/src/main/java/org/ide/hack1/client/githubmodels/GithubModelsClient.java:56 | `indexOf`: the first position of the character; none exactly when it is absent |
| JavaString.RemoveAll | Hack1/src/main/java/org/ide/hack1/entity/Sale.java:49 | `replace("-", "")`: no '-' is left, every other character of the input remains, and nothing is added; its order is fixed by `JavaString.RemoveAllAppend` and `JavaString.RemoveAllSingle` |
| JavaString.RemoveAllAppend | Hack1/src/main/java/org/ide/hack1/entity/Sale.java:49 | removing a character from a concatenation is removing it from each part, in order |
| JavaString.RemoveAllSingle | Hack1/src/main/java/org/ide/hack1/entity/Sale.java:49 | a single character is dropped exactly when it is the one removed |
| JavaString.RemoveAllAbsent | Hack1/src/main/java/org/ide/hack1/entity/Sale.java:49 | a string without the character is left unchanged |
| Words.TokensJoin | Hack1/src/main/java/org/ide/hack1/event/Listeners/ReportEventlisteners.java:151 | splitting words joined by single spaces at whitespace gives the words back |
| Words.SplitJoin | Hack1/src/main/java/org/ide/hack1/event/Listeners/ReportEventlisteners.java:151 | `split("\\s+")` of a space-joined list of words is that list |
| Words.TokensSpaced | Hack1/src/main/java/org/ide/hack1/event/Listeners/ReportEventlisteners.java:151 | the tokens of `a + " " + b` are those of `a` followed by those of `b` |
| Words.SplitUnspaced | Hack1/src/main/java/org/ide/hack1/event/Listeners/ReportEventlisteners.java:118 | for text that does not start with whitespace, `split("\\s+")` yields exactly its whitespace-separated tokens |
| Numerals.ParseNatText | Hack1/src/main/java/org/ide/hack1/event/Listeners/ReportEventlisteners.java:126 | the decimal text of a natural number reads back as that number |
| Numerals.LongTextRoundTrip | Hack1/src/main/java/org/ide/hack1/event/Listeners/ReportEventlisteners.java:126 | `String.valueOf(long)` has the shape of a signed decimal and reads back as the number, so different totals print differently |
| Numerals.Money2RoundTrip | Hack1/src/main/java/org/ide/hack1/event/Listeners/ReportEventlisteners.java:128-129 | the two-decimal rendering of an amount in cents has the shape sign, digits, '.', two digits and reads back as the amount |
| Aggregation.Select | Hack1/src/main/java/org/ide/hack1/service/sales/SalesAggregationService.java:25-30 | a sale is kept exactly when it is in the table, sold inside the window and, for a non-blank branch filter, of that branch; the selection is never longer than the table; table order is kept, by `Aggregation.SelectAppend` and `Aggregation.SelectSingle` |
| Aggregation.SelectAppend | Hack1/src/main/java/org/ide/hack1/service/sales/SalesAggregationService.java:25-30 | selecting from two tables in a row is selecting from each, in order |
| Aggregation.SelectSingle | Hack1/src/main/java/org/ide/hack1/service/sales/SalesAggregationService.java:25-30 | a single sale is kept exactly when it is sold inside the window and of the filtered branch |
| Aggregation.KeysOfMember | Hack1/src/main/java/org/ide/hack1/service/sales/SalesAggregationService.java:35 | a key is grouped exactly when some sale has it |
| Aggregation.GroupSum | Hack1/src/main/java/org/ide/hack1/service/sales/SalesAggregationService.java:35 | `groupingBy` with a summing collector: the map's keys are the keys present, and each value is the sum over the sales with that key |
| Aggregation.GroupSumTotal | Hack1/src/main/java/org/ide/hack1/service/sales/SalesAggregationService.java:32-41 | the groups add up to the overall total |
| Aggregation.MaxBy | Hack1/src/main/java/org/ide/hack1/service/sales/SalesAggregationService.java:36-39 | the top key is a key whose value no other key exceeds; none exactly when the map is empty |
| Aggregation.TopKey | Hack1/src/main/java/org/ide/hack1/service/sales/SalesAggregationService.java:36-45 | the top of a grouping is a grouped key whose total no other key exceeds; null exactly when there are no sales |
| Aggregation.Aggregate | Hack1/src/main/java/org/ide/hack1/service/sales/SalesAggregationService.java:32-54 | totals, both groupings and both tops of a list of sales, each in terms of the reference sums |
| Aggregation.CalculateAggregates | Hack1/src/main/java/org/ide/hack1/service/sales/SalesAggregationService.java:24-55 | a sku is grouped exactly when a selected sale has it; top sku and top branch are null exactly when nothing is selected |
| Aggregation.AggregateGroupsSumToTotals | Hack1/src/main/java/org/ide/hack1/service/sales/SalesAggregationService.java:32-41 | units by sku add up to the total units, revenue by branch to the total revenue |
| Aggregation.EmptyAggregate | Hack1/src/test/java/org/ide/hack1/service/sales/SalesAggregationServiceTest.java:66-79 | no sales give zero totals, empty maps and null tops |
| Aggregation.PositiveSales | Hack1/src/main/java/org/ide/hack1/service/sales/SalesAggregationService.java:32-33 | sales with at least one unit and a positive price give totals at least the number of sales |
| Aggregation.WorkedExample | Hack1/src/test/java/org/ide/hack1/service/sales/SalesAggregationServiceTest.java:43-64 | three sales (10 x 1.99 and 15 x 1.99 of OREO_CLASSIC in Miraflores, 5 x 2.49 of OREO_DOUBLE in San Isidro) give 30 units, 62.20 revenue, top sku OREO_CLASSIC and top branch Miraflores |
| Aggregation.TieExample | Hack1/src/test/java/org/ide/hack1/service/sales/SalesAggregationServiceTest.java:116-131 | with two skus tied, the top sku is one of the two |
| Aggregation.BranchFilterExample | Hack1/src/main/java/org/ide/hack1/service/sales/SalesAggregationService.java:26-30 | a Miraflores filter drops a San Isidro sale: 5 units, top branch Miraflores |
| Summary.IsValidSummary | Hack1/src/main/java/org/ide/hack1/event/Listeners/ReportEventlisteners.java:115-134 | an accepted text is present, not blank, at most 120 words, and mentions the top sku, the top branch, the unit total or the revenue; any such short text that names the unit total is accepted |
| Summary.IsValidSummaryIff | Hack1/src/main/java/org/ide/hack1/event/Listeners/ReportEventlisteners.java:115-134 | acceptance holds exactly when all those conditions hold |
| Summary.LongTextRefused | Hack1/src/main/java/org/ide/hack1/event/Listeners/ReportEventlisteners.java:118-119 | a text of more than 120 words is refused whatever it mentions |
| Summary.HeadlineTokens | Hack1/src/main/java/org/ide/hack1/event/Listeners/ReportEventlisteners.java:138 | the first sentence is seven words |
| Summary.FullSummaryShape | Hack1/src/main/java/org/ide/hack1/event/Listeners/ReportEventlisteners.java:137-148 | the untruncated template is the headline followed by the remaining sentences, separated by single spaces |
| Summary.TruncatedShape | Hack1/src/main/java/org/ide/hack1/event/Listeners/ReportEventlisteners.java:150-158 | a truncated summary is the first 120 words joined by spaces followed by " ..." |
| Summary.BuildSimpleSummary | Hack1/src/main/java/org/ide/hack1/event/Listeners/ReportEventlisteners.java:136-161 | the template starts with the headline and ends with '.'; when it has at most 120 words it is returned whole, otherwise its words are the first 120 words plus "..." |
| Summary.SummaryWordCount | Hack1/src/main/java/org/ide/hack1/event/Listeners/ReportEventlisteners.java:118 | the word count the validity check takes of the template is its number of whitespace-separated tokens |
| Summary.HeadlineText | Hack1/src/main/java/org/ide/hack1/event/Listeners/ReportEventlisteners.java:138 | the headline reads "Se vendieron N unidades en el periodo." |
| Summary.HeadlineMentionsUnits | Hack1/src/main/java/org/ide/hack1/event/Listeners/ReportEventlisteners.java:126 | any text starting with the headline names the unit total |
| Summary.SimpleSummaryValidIffUncut | Hack1/src/main/java/org/ide/hack1/event/Listeners/ReportEventlisteners.java:115-161 | the template passes the validity check exactly when it was not truncated |
| Summary.RevenueLineTokens | Hack1/src/main/java/org/ide/hack1/event/Listeners/ReportEventlisteners.java:140 | the revenue sentence is three words |
| Summary.NameSentenceTokens | Hack1/src/main/java/org/ide/hack1/event/Listeners/ReportEventlisteners.java:141-148 | for a one-word name, the sku sentence is four words and the branch sentence three |
| Summary.PlainNamesShort | Hack1/src/main/java/org/ide/hack1/event/Listeners/ReportEventlisteners.java:137-148 | with one-word sku and branch names the template stays within 120 words |
| Summary.PlainNamesNeverCut | Hack1/src/main/java/org/ide/hack1/event/Listeners/ReportEventlisteners.java:149-160 | such a template is returned whole and passes the validity check |
| Summary.RevenueLineText | Hack1/src/main/java/org/ide/hack1/event/Listeners/ReportEventlisteners.java:140 | the revenue sentence is "Ingresos totales: " followed by the two-decimal amount and "." |
| Summary.TwoSentenceSummary | Hack1/src/main/java/org/ide/hack1/event/Listeners/ReportEventlisteners.java:137-148 | without top sku and branch the summary is the headline and the revenue sentence |
| Summary.ZeroHeadline | Hack1/src/main/java/org/ide/hack1/event/Listeners/ReportEventlisteners.java:138 | for zero units the headline is "Se vendieron 0 unidades en el periodo." |
| Summary.ZeroRevenueLine | Hack1/src/main/java/org/ide/hack1/event/Listeners/ReportEventlisteners.java:140 | for zero revenue the line is "Ingresos totales: 0.00." |
| Summary.ZeroSummary | Hack1/src/main/java/org/ide/hack1/event/Listeners/ReportEventlisteners.java:136-160 | zero totals with no tops give exactly "Se vendieron 0 unidades en el periodo." and "Ingresos totales: 0.00." joined by a space |
| Summary.EmptySummary | Hack1/src/main/java/org/ide/hack1/event/Listeners/ReportEventlisteners.java:136-160 | a period without sales is summarised by the zero headline and the zero revenue sentence |
| GithubModels.SplitEnvLine | Hack1/src/main/java/org/ide/hack1/client/githubmodels/GithubModelsClient.java:54-59 | a line yields nothing (blank, comment, no key before '=') or a non-empty trimmed key |
| GithubModels.SplitEnvLineOf | Hack1/src/main/java/org/ide/hack1/client/githubmodels/GithubModelsClient.java:54-59 | a line `k=v` with a plain key splits into exactly `k` and `v` |
| GithubModels.Unquote | Hack1/src/main/java/org/ide/hack1/client/githubmodels/GithubModelsClient.java:61-63 | one pair of matching surrounding quotes is removed, only when there is a pair |
| GithubModels.UnquoteAsWritten | Hack1/src/main/java/org/ide/hack1/client/githubmodels/GithubModelsClient.java:61-63 | the quote removal as written: it throws exactly on a lone quote character and otherwise agrees with the intended one |
| GithubModels.ParseEnvLine | Hack1/src/main/java/org/ide/hack1/client/githubmodels/GithubModelsClient.java:54-63 | a `.env` line gives an entry exactly when it splits into a key and a value, with a non-empty trimmed key |
| GithubModels.ParseEnvLineAsWritten | Hack1/src/main/java/org/ide/hack1/client/githubmodels/GithubModelsClient.java:54-63 | the line read as written: it throws exactly on a lone-quote value, otherwise it agrees with the intended reading |
| GithubModels.EnvLineRoundTrip | Hack1/src/main/java/org/ide/hack1/client/githubmodels/GithubModelsClient.java:54-63 | `KEY="value"` reads back as the key and exactly the value |
| GithubModels.LoneQuoteThrows | Hack1/src/main/java/org/ide/hack1/client/githubmodels/GithubModelsClient.java:61-63 | `KEY="` throws as written, while the intended reading gives the key with the value `"` |
| GithubModels.Fill | Hack1/src/main/java/org/ide/hack1/client/githubmodels/GithubModelsClient.java:64-76 | an entry fills only its own setting and only while it is null or blank; unknown keys change nothing |
| GithubModels.FirstNonBlank | Hack1/src/main/java/org/ide/hack1/client/githubmodels/GithubModelsClient.java:53-77 | the reference reading of a file: the value is non-blank and given by some line before which every line for that setting gave a blank value; none only when every value given for the setting is blank |
| GithubModels.FirstNonBlankWins | Hack1/src/main/java/org/ide/hack1/client/githubmodels/GithubModelsClient.java:53-77 | applying the file line by line keeps a setting already given, and otherwise takes the file's first non-blank value for it |
| GithubModels.LoadConfig | Hack1/src/main/java/org/ide/hack1/client/githubmodels/GithubModelsClient.java:48-83 | the file is consulted only when the token or model id is null or blank, a missing or unreadable file changes nothing, and a configured setting is never overwritten |
| GithubModels.TokenFromFile | Hack1/src/main/java/org/ide/hack1/client/githubmodels/GithubModelsClient.java:65-66 | a missing token is taken from the first non-blank `GITHUB_TOKEN` line |
| GithubModels.ParseLinesAsWritten | Hack1/src/main/java/org/ide/hack1/client/githubmodels/GithubModelsClient.java:53-63 | the line loop as written fails exactly when some line has a lone-quote value, and otherwise agrees with the intended one |
| GithubModels.LoadConfigAsWritten | Hack1/src/main/java/org/ide/hack1/client/githubmodels/GithubModelsClient.java:48-83 | the constructor as written fails exactly when the file is consulted and a line has a lone-quote value; otherwise it agrees with the intended one |
| GithubModels.LoneQuoteStopsStartup | Hack1/src/main/java/org/ide/hack1/client/githubmodels/GithubModelsClient.java:48-83 | without a configured token, a `.env` line `GITHUB_TOKEN="` makes the constructor throw, since only read errors are caught |
| GithubModels.ExtractContent | Hack1/src/main/java/org/ide/hack1/client/githubmodels/GithubModelsClient.java:133-147 | no content is found only when there is no `data[0].content` either |
| GithubModels.ShapesExtract | Hack1/src/main/java/org/ide/hack1/client/githubmodels/GithubModelsClient.java:133-147 | each of the three response shapes yields its text |
| GithubModels.ChoicesBeforeData | Hack1/src/main/java/org/ide/hack1/client/githubmodels/GithubModelsClient.java:143-147 | a usable `choices` entry wins over `data` |
| GithubModels.UserPrompt | Hack1/src/main/java/org/ide/hack1/client/githubmodels/GithubModelsClient.java:102-105 | the user message names the unit total |
| GithubModels.BuildRequest | Hack1/src/main/java/org/ide/hack1/client/githubmodels/GithubModelsClient.java:107-125 | the request goes to the configured url with the bearer token and the model id, asks for at most 200 tokens, and its user message names the unit total |
| GithubModels.GenerateSummary | Hack1/src/main/java/org/ide/hack1/client/githubmodels/GithubModelsClient.java:89-163 | no summary without token, model id or url; with them, a 2xx response whose body has content always gives a summary, and a summary is exactly the trimmed text of the extracted content (the text of a string node, the rendering of any other) |
| GithubModels.ChatCompletionSummary | Hack1/src/main/java/org/ide/hack1/client/githubmodels/GithubModelsClient.java:127-150 | a configured client answered 2xx with a chat completion returns its text, trimmed |
| ReportListener.DayWindow | Hack1/src/main/java/org/ide/hack1/event/Listeners/ReportEventlisteners.java:55-56 | the window runs from the first second of the first day to the last second of the last day |
| ReportListener.DayWindowExact | Hack1/src/main/java/org/ide/hack1/event/Listeners/ReportEventlisteners.java:55-56 | an instant, counted in whole seconds, lies in the window exactly when its UTC day lies between the two dates |
| ReportListener.ChooseSummary | Hack1/src/main/java/org/ide/hack1/event/Listeners/ReportEventlisteners.java:64-80 | the LLM text exactly when it returned and passes the check, the template otherwise |
| ReportListener.MarkFailed | Hack1/src/main/java/org/ide/hack1/event/Listeners/ReportEventlisteners.java:106-111 | FAILED with the exception's message and a completion time; nothing else changes |
| ReportListener.MarkDone | Hack1/src/main/java/org/ide/hack1/event/Listeners/ReportEventlisteners.java:82-85 | DONE with the summary and a completion time; nothing else changes |
| ReportListener.Body | Hack1/src/main/java/org/ide/hack1/event/Listeners/ReportEventlisteners.java:95 | the email body contains the summary |
| ReportListener.SendStep | Hack1/src/main/java/org/ide/hack1/event/Listeners/ReportEventlisteners.java:87-105 | mail goes out exactly when the address is usable; a mail failure adds an error note and a second save, and the row stays DONE |
| ReportListener.HandleReportRequested | Hack1/src/main/java/org/ide/hack1/event/Listeners/ReportEventlisteners.java:44-113 | an unknown id aborts with 404 before any save; missing dates end FAILED with "from/to dates are required"; a failing aggregation ends FAILED with its message as the error and one save; DONE only with dates, a working aggregation and a non-blank summary, and then the DONE row is saved first and mail goes out exactly when the address is usable; the aggregation covers the requested days |
| ReportListener.HandleWritesOnlyOutcome | Hack1/src/main/java/org/ide/hack1/event/Listeners/ReportEventlisteners.java:82-111 | the job writes only status, summary, completion time and error note |
| ReportListener.HandleLifecycle | Hack1/src/main/java/org/ide/hack1/event/Listeners/ReportEventlisteners.java:44-113 | a PROCESSING request ends with a completion time, and with a summary exactly when DONE |
| ReportListener.HandleSummaryChoice | Hack1/src/main/java/org/ide/hack1/event/Listeners/ReportEventlisteners.java:64-83 | the stored summary is the LLM's text exactly when it passes the check, else the template |
| ReportListener.MailFailureKeepsDone | Hack1/src/main/java/org/ide/hack1/event/Listeners/ReportEventlisteners.java:96-105 | a failed email leaves the request DONE with its summary and notes "email error: ..." |
| ReportListener.NoAddressNoMail | Hack1/src/main/java/org/ide/hack1/event/Listeners/ReportEventlisteners.java:88-92 | without a usable address nothing is sent and the request is saved once, DONE |
| SalesService.ToDto | Hack1/src/main/java/org/ide/hack1/service/sales/SalesService.java:101-112 | the response carries every field of the sale, and the sale can be read back from it |
| SalesService.ToDtoInjective | Hack1/src/main/java/org/ide/hack1/service/sales/SalesService.java:101-112 | different sales give different responses |
| SalesService.Dtos | Hack1/src/main/java/org/ide/hack1/service/sales/SalesService.java:70 | the page's responses are the sales' responses in order |
| SalesService.FindSale | Hack1/src/main/java/org/ide/hack1/service/sales/SalesService.java:48 | `findById`: a position holding that id, with no earlier position holding it, or none exactly when no sale has it |
| SalesService.FindSameIds | Hack1/src/main/java/org/ide/hack1/service/sales/SalesService.java:48 | two tables with the same ids at the same positions find an id at the same position |
| SalesService.FindSaleUnique | Hack1/src/main/java/org/ide/hack1/service/sales/SalesService.java:48 | in a table with unique ids the position found is the only one with that id |
| SalesService.CreateSale | Hack1/src/main/java/org/ide/hack1/service/sales/SalesService.java:29-45 | a BRANCH caller naming another or no branch gets 403 "branch mismatch"; otherwise the sale is appended with the request's fields, the caller as creator, a generated `s_` id and the current time; ids stay unique; a complete request with a fresh id always succeeds |
| SalesService.GetSale | Hack1/src/main/java/org/ide/hack1/service/sales/SalesService.java:47-55 | 404 "sale not found" exactly for a missing id; with unique ids, 403 "forbidden" exactly for a BRANCH caller and another branch's sale; a found sale the caller may read is always returned, and for a BRANCH caller it is of their branch |
| SalesService.UpdateSale | Hack1/src/main/java/org/ide/hack1/service/sales/SalesService.java:78-92 | the same checks, then the five request fields overwrite the sale in place, keeping id, creator and creation time |
| SalesService.RemoveId | Hack1/src/main/java/org/ide/hack1/service/sales/SalesService.java:98 | `deleteById`: the sales without that id, in order, by `SalesService.RemoveIdAppend` and `SalesService.RemoveIdSingle` |
| SalesService.RemoveIdAppend | Hack1/src/main/java/org/ide/hack1/service/sales/SalesService.java:98 | deleting from two tables in a row is deleting from each, in order |
| SalesService.RemoveIdSingle | Hack1/src/main/java/org/ide/hack1/service/sales/SalesService.java:98 | a single sale is dropped exactly when it carries the id |
| SalesService.RemoveIdWellFormed | Hack1/src/main/java/org/ide/hack1/service/sales/SalesService.java:98 | deleting keeps ids unique |
| SalesService.DeleteSale | Hack1/src/main/java/org/ide/hack1/service/sales/SalesService.java:94-99 | 403 "only central can delete" exactly for non-CENTRAL callers; a CENTRAL caller always succeeds, leaving exactly the sales with another id in order; ids stay unique and the id is no longer found |
| SalesService.CreateThenGet | Hack1/src/main/java/org/ide/hack1/service/sales/SalesService.java:29-55 | a created sale reads back as the response that creation returned |
| SalesService.DeleteThenGet | Hack1/src/main/java/org/ide/hack1/service/sales/SalesService.java:47-99 | after a delete the id reads back as 404 |
| SalesService.BranchUserCanMoveSale | Hack1/src/main/java/org/ide/hack1/service/sales/SalesService.java:78-92 | a BRANCH user may update their own sale to another branch, and reading it back then answers 403 "forbidden" |
| SalesService.ToInt32 | Hack1/src/main/java/org/ide/hack1/service/sales/SalesService.java:67 | the `(int)` cast: the value is kept when it fits, and otherwise wraps modulo 2^32 |
| SalesService.PageSlice | Hack1/src/main/java/org/ide/hack1/service/sales/SalesService.java:64-71 | page p of size s is the slice from p*s, at most s long, empty past the end |
| SalesService.PageSliceTotal | Hack1/src/main/java/org/ide/hack1/service/sales/SalesService.java:71 | the total a page reports (Spring's `PageImpl` adjustment) is the length of the list |
| SalesService.PagesCover | Hack1/src/main/java/org/ide/hack1/service/sales/SalesService.java:64-71 | the first k pages of size z, put together, are the first k*z sales (or all of them) |
| SalesService.ManualPageAsWritten | Hack1/src/main/java/org/ide/hack1/service/sales/SalesService.java:67-69 | the paging as written, with the offset cast to 32 bits: it agrees with the intended page whenever offset plus size fits in 32 bits, and fails exactly when the cast offset is negative |
| SalesService.ListBranch | Hack1/src/main/java/org/ide/hack1/service/sales/SalesService.java:58-61 | a BRANCH caller is always listed for their own branch |
| SalesService.ListSales | Hack1/src/main/java/org/ide/hack1/service/sales/SalesService.java:57-76 | the page holds selected sales only, the total is the number selected, a BRANCH caller sees only their branch, and the page is exactly the selection from the offset on, at most size long |
| SalesService.ListSalesAsWritten | Hack1/src/main/java/org/ide/hack1/service/sales/SalesService.java:57-76 | the listing as written agrees with the intended one for a branch listing and whenever offset plus size fits in 32 bits |
| SalesService.WrappedOffsetRepeatsFirstPage | Hack1/src/main/java/org/ide/hack1/service/sales/SalesService.java:67-71 | page 65536 of size 65536 over one sale returns that sale and reports 2^32 + 1 sales as written, where the intended page is empty |
| SalesService.NegativeOffsetFails | Hack1/src/main/java/org/ide/hack1/service/sales/SalesService.java:67-69 | page 32768 of size 65536 gives a negative start and fails as written, where the intended page is empty |
| AuthService.FindByUsername | Hack1/src/main/java/org/ide/hack1/service/auth/AuthService.java:36 | `findByUsername`: a position with that name, none exactly when no user has it |
| AuthService.FindAppended | Hack1/src/main/java/org/ide/hack1/service/auth/AuthService.java:63-68 | a name absent from the table is found at the end once its user is appended |
| AuthService.StoredBranch | Hack1/src/main/java/org/ide/hack1/service/auth/AuthService.java:61 | a user keeps a branch exactly when BRANCH and one was given |
| AuthService.Register | Hack1/src/main/java/org/ide/hack1/service/auth/AuthService.java:34-64 | 409 for a taken username, then for a taken email; 400 "invalid role"; 400 for a BRANCH role without a branch; a fresh, complete request with an unused id always succeeds; the user is appended with the encoded password, the role, the branch rule, a `u_` id and now, and uniqueness is kept |
| AuthService.Login | Hack1/src/main/java/org/ide/hack1/service/auth/AuthService.java:66-83 | 401 "invalid credentials" exactly for an unknown user or a wrong password, otherwise a token with the user's role name and branch |
| AuthService.LoginRequestViolations | Hack1/src/main/java/org/ide/hack1/dto/auth/LoginRequest.java:12-16 | `username` and `password` are each reported exactly when missing or empty after `trim()` |
| AuthService.RegisterThenLogin | Hack1/src/main/java/org/ide/hack1/service/auth/AuthService.java:34-83 | a registered user logs in with the same password and sees their role and branch |
| AuthService.ToUserResponse | Hack1/src/main/java/org/ide/hack1/service/auth/AuthService.java:85-94 | every field but the password, the role as its name |
| AuthService.PasswordNeverShown | Hack1/src/main/java/org/ide/hack1/service/auth/AuthService.java:85-94 | the response does not depend on the password |
| Security.Authorities | Hack1/src/main/java/org/ide/hack1/security/jwt/JwtFilter.java:40-44 | one `ROLE_` authority for a non-blank role, none exactly for a null or blank one |
| Security.Filter | Hack1/src/main/java/org/ide/hack1/security/jwt/JwtFilter.java:25-57 | without a bearer header the context is kept; a rejected token keeps it; a verified token installs username, role authority and branch; any other exception clears it; the chain runs once |
| Security.CurrentUsername | Hack1/src/main/java/org/ide/hack1/controller/SalesControlller.java:42-45 | the principal, or null without authentication |
| Security.FirstRole | Hack1/src/main/java/org/ide/hack1/controller/SalesControlller.java:50-54 | the first `ROLE_` authority without its prefix; none exactly when there is none |
| Security.CurrentRole | Hack1/src/main/java/org/ide/hack1/controller/SalesControlller.java:47-55 | the role of the first `ROLE_` authority, or null |
| Security.CurrentBranch | Hack1/src/main/java/org/ide/hack1/controller/SalesControlller.java:57-62 | the details, or null |
| Security.StripRolePrefix | Hack1/src/main/java/org/ide/hack1/controller/SalesControlller.java:52 | stripping the prefix undoes adding it |
| Security.FilterThenCurrent | Hack1/src/main/java/org/ide/hack1/security/jwt/JwtFilter.java:31-48 | after a verified token the controllers read back its username, its non-blank role and its branch |
| Security.BranchClaimGivesBranchRole | Hack1/src/main/java/org/ide/hack1/security/jwt/JwtFilter.java:40-48 | a `BRANCH` claim makes the caller a BRANCH user |
| SalesController.PageRequestOf | Hack1/src/main/java/org/ide/hack1/controller/SalesControlller.java:89-91 | a page request exists exactly for page >= 0 and size >= 1, and an invalid one is a 500 |
| SalesController.InstantParam | Hack1/src/main/java/org/ide/hack1/controller/SalesControlller.java:87-88 | the default when absent, the parsed instant when it parses, a 500 otherwise |
| SalesController.ListSalesEndpoint | Hack1/src/main/java/org/ide/hack1/controller/SalesControlller.java:81-96 | defaults: epoch, now, page 0, size 20; an unparsable instant or an out-of-range page or size is an error; otherwise the answer is the intended listing (`SalesService.ListSales`) at the parsed instants and `PageRequest(page, size)`; a page never exceeds its size; a BRANCH caller sees only their branch |
| SalesController.ListSalesEndpointAsWritten | Hack1/src/main/java/org/ide/hack1/controller/SalesControlller.java:81-96 | the endpoint over the listing as written: the same parameter errors, the 32-bit offset otherwise, and the same answer as the endpoint whenever offset plus size fits in 32 bits |
| SalesController.EndpointWrapsOffset | Hack1/src/main/java/org/ide/hack1/controller/SalesControlller.java:81-96 | page 65536, size 65536, a CENTRAL caller and one sale: as written the sale comes back with total 2^32 + 1, intended is an empty page with total 1 |
| SalesController.DefaultDates | Hack1/src/main/java/org/ide/hack1/controller/SalesControlller.java:125-132 | only the missing dates are filled; both missing give seven days ending yesterday |
| SalesController.ScopeBranch | Hack1/src/main/java/org/ide/hack1/controller/SalesControlller.java:134-141 | 403 exactly for a BRANCH user naming another non-blank branch; otherwise a BRANCH user gets their own branch and others keep theirs |
| SalesController.AcceptedMessage | Hack1/src/main/java/org/ide/hack1/controller/SalesControlller.java:160 | the acknowledgement names the address |
| SalesController.RequestWeeklySummary | Hack1/src/main/java/org/ide/hack1/controller/SalesControlller.java:113-166 | 403 for a BRANCH caller naming another branch; an in-scope request with an address and an unused id is always accepted; it stores one new PROCESSING request with the filled dates, scoped branch and caller, leaves other rows unchanged, publishes an event describing it, and answers with its id |
| SalesController.SummaryRequestViolations | Hack1/src/main/java/org/ide/hack1/dto/summary/SummaryRequestDTO.java:20-22 | `emailTo` is reported exactly when it is missing or empty after `trim()`; nothing else is reported |
| SalesController.RequestWeeklySummaryValidated | Hack1/src/main/java/org/ide/hack1/controller/SalesControlller.java:113-114 | behind `@Valid`: a violating body is a 500 before anything is stored; a valid one gets the endpoint's answer; an accepted request always carries a non-blank address |
| SalesController.BlankAddressRefused | Hack1/src/main/java/org/ide/hack1/controller/SalesControlller.java:113-114 | a missing or all-blank address is refused |
| SalesController.RequestThenJob | Hack1/src/main/java/org/ide/hack1/controller/SalesControlller.java:143-155 | the job started by an accepted request finds its row, covers the requested days, ends DONE unless aggregation fails, and holds a summary exactly when DONE |
| SalesController.BranchSummaryScoped | Hack1/src/main/java/org/ide/hack1/controller/SalesControlller.java:134-141 | a BRANCH user's stored request always names their own branch |
| ReportsController.ReportView | Hack1/src/main/java/org/ide/hack1/controller/ReportsController.java:53-60 | the view shows id, status name, error note, request time and summary, and no estimate |
| ReportsController.GetReport | Hack1/src/main/java/org/ide/hack1/controller/ReportsController.java:44-62 | 404 exactly for a missing id; 403 exactly when a BRANCH caller asks for another branch's report; a stored report the caller may see is always returned as its view |
| ReportsController.NonBranchSeesAll | Hack1/src/main/java/org/ide/hack1/controller/ReportsController.java:49-51 | callers other than BRANCH see every report |
| ReportsController.UnscopedReportVisible | Hack1/src/main/java/org/ide/hack1/controller/ReportsController.java:49 | a report without a branch is visible to all |
| ReportsController.RequesterSeesOwnReport | Hack1/src/main/java/org/ide/hack1/controller/ReportsController.java:44-62 | a requester reads their own new report as PROCESSING without a summary |
| ReportsController.BranchScopedRow | Hack1/src/main/java/org/ide/hack1/controller/ReportsController.java:49-51 | the row stored for a BRANCH requester is never hidden from them |
| ReportsController.JobResultVisible | Hack1/src/main/java/org/ide/hack1/controller/ReportsController.java:53-60 | after the job, the report shows DONE or FAILED with the stored summary and error note |

## Left out

- Logging, Spring wiring, `@Async` scheduling and transactions are not modelled. The report job is one function call and its saves are taken to succeed; elsewhere a save the database would refuse for a null column or a duplicate id is an `Internal` error.
- The JWT signature, claim parsing and expiry are left out; `Security.Filter` takes the provider's verdict on the token as a function.
- Token generation and the `jwt.expirationSeconds` property are not modelled. `AuthService.Login` takes the issuer and the lifetime as parameters.
- BCrypt is not modelled; the encoder is a pair of functions.
- The mail transport, the HTTP client, URI parsing and Jackson's serialisation are left out. They appear as `send` (an HTTP answer, or none when sending throws), `render` (the text of a non-text JSON node) and the JSON tree `Json`.
- `Instant.now()`, `LocalDate.now()`, `UUID.randomUUID()`, `Instant.parse` and `LocalDate.toString` are left out as computations; they are parameters.
- Money as `double` is not modelled. Prices and revenues are integer cents, so floating-point rounding, `%.2f` versus `DecimalFormat` half-even rounding, and locale decimal separators are left out.
- `Numerals.Money2RoundTrip`: states the round trip for exact cents only, because the model has no binary fractions.
- `HashMap` iteration order is not modelled. `Aggregation.TopKey` and `Aggregation.MaxBy` promise only some key of maximal value, which is all the source promises under ties.
- The database's row order is taken to be table order: `findBySoldAtBetween` returns sales in insertion order.
- Paging with a branch filter is done by the database and is modelled as the exact page. Only the manual paging path is modelled with its 32-bit cast.
- `SalesController.PageRequestOf`: requires page and size to fit in 32 bits, because they arrive as Java `int`s.
- Bean validation is modelled by `Validation` as the set of violated fields. `@NotBlank` is the validator's test, a value not empty after `trim()`, which differs from `String.isBlank()` used by the services. The `@Email` regular expression is reduced to a non-blank check, and `@Size` counts characters rather than UTF-16 units. The summary body's `@NotBlank` is `SalesController.SummaryRequestViolations` and the login body's is `AuthService.LoginRequestViolations`. The `@Valid` step is composed only with the summary endpoint (`SalesController.RequestWeeklySummaryValidated`); for the sale, registration and login endpoints a request it would reject reaches the services' own error paths in the model.
- `SalesController.RequestWeeklySummary`: stores any present address, even a blank one or one that is not an email address. The source refuses a blank address before the body runs; that is `SalesController.RequestWeeklySummaryValidated`. The `@Email` pattern is reduced to the non-blank test, so an address like `x` is accepted by both.
- `SalesController.ListSalesEndpoint`: is built on the intended listing, `SalesService.ListSales`, not on the source's 32-bit offset. With an offset past 2^31 the source answers an early page with an inflated total, or a 500; that behaviour is `SalesController.ListSalesEndpointAsWritten` (see Findings).
- Storage errors (a null column, a duplicate key) are `Err(Error(Internal, None))`. The database's message text is not modelled.
- `AuthService.Register`, `SalesService.CreateSale`, `SalesService.UpdateSale`: column lengths are not modelled. The store refuses a username over 50 characters, an email over 120 (User.java:28-31) and any other string column over 255, which the source reports as a 500; the model stores such values.
- `ReportListener.HandleReportRequested`: the branch that fails with "failed to calculate aggregates" when the aggregates are null (ReportEventlisteners.java:60-62) is not modelled separately. `calculateAggregates` always returns a built object (SalesAggregationService.java:47-54), so the branch cannot be taken; any exception from the aggregation is the `aggregationFailure` parameter, whose message becomes the error note.
- The controllers for users and authentication only forward to `AuthService`, and the sales controller's create, get, update and delete endpoints only forward to `SalesService`; those wrappers have no members of their own.
- `Role.java` is not part of this model. `Role.valueOf` is modelled from its use at `AuthService.register`.
- `GithubModels.SplitEnvLine`: states only that a key is non-empty and trimmed. The exact split of a well-formed line is stated by `GithubModels.SplitEnvLineOf` and `GithubModels.EnvLineRoundTrip`.
- `GithubModels.ExtractContent`: states only when nothing is found. The order of the three paths is stated by `GithubModels.ShapesExtract` and `GithubModels.ChoicesBeforeData`.
- `Aggregation.CalculateAggregates`: states which skus are grouped and when the tops are null. The sums themselves are stated by `Aggregation.Aggregate` over `Aggregation.Select`.
- `ReportListener.DayWindowExact`: holds for instants of whole seconds only, because the model counts time in seconds. The source's window ends at 23:59:59 of the last day, so a sale at 23:59:59.5 of that day is in the day but outside the window; the model cannot express that instant.
- The system and user prompts are modelled only as far as the user prompt naming the unit total; the rest of the wording is not stated.
- `Summary.BuildSimpleSummary`: when the template has more than 120 words its output has 121 (120 plus "..."), so `Summary.SimpleSummaryValidIffUncut` shows that a truncated template never passes the source's own check. The source applies no check to the template, so this is a property of the design rather than a fault.

## Findings

| source | as written | input that shows it | evidently intended | confidence | as-written member | corrected member |
|---|---|---|---|---|---|---|
| Hack1/src/main/java/org/ide/hack1/client/githubmodels/GithubModelsClient.java:61-63 | a value that is a single `"` or `'` passes both `startsWith` and `endsWith`, and `substring(1, 0)` throws `StringIndexOutOfBoundsException`; only `IOException` is caught, so the constructor fails | `.env` line `GITHUB_TOKEN="` while no token is configured | strip quotes only when there is a pair, so the value is kept as `"` | not executed | GithubModels.LoadConfigAsWritten (with GithubModels.LoneQuoteStopsStartup, GithubModels.LoneQuoteThrows) | GithubModels.LoadConfig (with GithubModels.Unquote, GithubModels.EnvLineRoundTrip, GithubModels.FirstNonBlankWins) |
| Hack1/src/main/java/org/ide/hack1/service/sales/SalesService.java:67-71 | `(int) pageable.getOffset()` wraps: a large offset becomes small and returns an early page with an inflated total, or becomes negative and `subList` throws | page 65536, size 65536 over one sale returns that sale with total 2^32 + 1; page 32768, size 65536 fails | use the full `long` offset, so a page past the end is empty | not executed | SalesService.ListSalesAsWritten (with SalesService.ManualPageAsWritten, SalesService.WrappedOffsetRepeatsFirstPage, SalesService.NegativeOffsetFails, SalesController.ListSalesEndpointAsWritten, SalesController.EndpointWrapsOffset) | SalesService.ListSales (with SalesService.PageSlice, SalesService.PagesCover, SalesService.PageSliceTotal, SalesController.ListSalesEndpoint) |
