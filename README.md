# LazyBot Rate Confirmation parser — a Dafny model

LazyBot is a Telegram bot for freight dispatchers. A user uploads a Rate
Confirmation PDF. The bot reads the PDF's text, using the digital text layer
first and OCR when that layer is broken or nearly empty. It pulls out the
broker, the load number, the stops, the rate and the miles, using an AI
extractor first and three regular expressions as a fallback. It renders these
fields through a Jinja2 template, which is the built-in one or the user's own,
and sends the result back.

Each user has one FIFO queue and at most one worker draining it. A user who
is neither Pro nor an admin pays one free use per delivered result. Pro is
bought for 30 days with Telegram Stars or granted by the owner with
`/givepro`. Two inner middlewares see every handled message before its
handler does: a per-user throttle, and a check that ends expired
subscriptions. Being inner, they run only for a message whose filters some
handler accepted.

The model has one Dafny module per core source file, plus shared modules:

- `Wrappers`: `Option` and `Result`.
- `Text`: the Python `str` operations the bot uses, such as `strip`, `split`,
  `splitlines`, `startswith`, `in`, `replace` and `join`.
- `Numerals`: `str(int)` and `int(str)`.
- `Calendar`: naive `datetime` arithmetic, `timedelta(days=…)` and
  `strftime('%d.%m.%Y')`.
- `Records`: the structured record.
- `Patterns`: the three regular expressions, each with a declarative
  semantics of `re.search` and a greedy matcher proved against it.

| source file | module | form |
|---|---|---|
| services/pdf_engine.py | `PdfEngine` | methods with loops over the pages and the images, proved against functions |
| services/extractor.py | `Extractor`, `Patterns` | functions and lemmas |
| services/renderer.py | `Renderer` | functions and lemmas; the built-in template as a syntax tree |
| handlers/processor.py | `Processor` | class `Orchestrator` over the queues and workers; a method with the progress loop |
| handlers/start.py | `Start` | methods on the store; class `TemplateDialogue` for the waiting state |
| handlers/billing.py | `Billing` | methods on the store, functions for the replies |
| handlers/admin.py | `Admin` | a function for the decision, a method for the update |
| utils/middlewares.py | `Middlewares` | class `Throttle` with its cache; a method for the subscription check |
| config.py | `Config` | functions and lemmas |
| database/models.py | `Accounts`, `Records` | class `Store` holding the `users` table as a map |

**Extraction is AI first.** `smart_extract` in services/extractor.py asks
the AI layer first and takes its record whole when the AI gives a true
value. Otherwise it takes the regex record whole. The two records are never
merged field by field; only the mileage lookup can change the chosen record,
and only its `total_miles`. `Extractor.SmartExtract`,
`Extractor.AiRecordUsedWhole` and `Extractor.FallbackIsRegex` state both
cases.

**Outside services are parameters.** These are the Telegram file download,
pdfplumber's page texts, the page images and Tesseract's text for each,
DeepSeek's reply and `json.loads`, the geocoding and routing lookup, and
Jinja2 on a user's template. Each is a datatype or a function passed in, so
every lemma holds whatever they return. Where a call can raise, the
parameter's type has a case for it. Clocks are parameters too: `now` is an
`Instant`, microseconds since 0001-01-01 up to the end of year 9999, and the
throttle's times are `real` timestamps.

## Model

| member | source | states |
|---|---|---|
| `Accounts.NewUser` | database/models.py:9-23 | a new row has the given id, username and creation time, and the column defaults: two free uses, not Pro, no expiry, no template |
| `Accounts.Repr` | database/models.py:25-26 | `__repr__` starts with `<User ` and ends with `>`; `Accounts.ReprReadsBack` and `Accounts.ReprShowsPro` state what lies between |
| `Accounts.ReprReadsBack` | database/models.py:25-26 | `__repr__` starts with `<User ` followed by the Telegram id in decimal, which `int` reads back as the id |
| `Accounts.ReprShowsPro` | database/models.py:25-26 | the representation ends in `True>` exactly when the account is Pro |
| `Accounts.Store.constructor` | database/models.py:5-9 | the table starts empty and valid |
| `Accounts.Store.Find` | database/models.py:9 | a row is found exactly when the id has one; in a valid table it carries that id, and if Pro it has an expiry |
| `Accounts.Store.Insert` | handlers/start.py:26-32 | adds the new row under its own id and changes no other row; the table stays valid |
| `Accounts.Store.SetTemplate` | handlers/start.py:114-118 | only that row's template changes; with no row nothing changes |
| `Accounts.Store.GrantPro` | handlers/billing.py:57-63 | only that row's `is_pro` and expiry change, both in one update; with no row nothing changes |
| `Accounts.Store.SetFreeUses` | handlers/processor.py:95-99 | only that row's free-use count changes |
| `Accounts.Store.Demote` | utils/middlewares.py:40-41 | only that row's `is_pro` becomes false; the expiry stays |
| `Start.StatusText` | handlers/start.py:47 | the status is the fixed `Pro ✅` exactly when the account is Pro; `Start.StatusTextReadsBack` states the free case |
| `Start.StatusTextReadsBack` | handlers/start.py:47 | a Pro status is the fixed `Pro ✅`; a free status starts with `Free (`, and the number after it reads back as the free uses left |
| `Start.StatusTextTellsProApart` | handlers/start.py:47 | a Pro status and a free status are never equal |
| `Start.CmdStart` | handlers/start.py:20-52 | an unknown id gets a new row with the defaults and a welcome; a known id's row is untouched and its status is shown |
| `Start.CurrentTemplate` | handlers/start.py:66 | shows the stored template when it is non-empty, and the default label when there is no row, no template or an empty one |
| `Start.CurrentTemplateMatchesRenderer` | handlers/start.py:66 | `/my_template` names the built-in template exactly when rendering would use it, and otherwise shows the text rendering uses |
| `Start.CmdResetTemplate` | handlers/start.py:77-81 | the sender's template becomes `NULL`; nothing else changes |
| `Start.CommandWord` | handlers/start.py:13-89 | the word the `Command` filters compare, read from the first whitespace token after its `/`, never holds the `@` of a mention |
| `Start.RoutedCommand` | handlers/start.py:13-89 | a text goes to `cmd_start`, `cmd_my_template`, `cmd_reset_template` or `cmd_set_template` exactly when its command word is `start`, `my_template`, `reset_template` or `set_template` |
| `Start.Classify` | handlers/start.py:13-112 | in the waiting state, in registration order: one of the four commands above goes to its own handler; any other text starting with `/` cancels and gets no reply; otherwise a rejection without `{{` and a template with it |
| `Start.CommandWordOf` | handlers/start.py:13-89 | `/name`, alone or followed by whitespace and arguments, has the command word `name` |
| `Start.OtherCommandIsCancelled` | handlers/start.py:103-106 | in the waiting state every command other than the four is cancelled, so no later handler sees it |
| `Start.RoutedCommandIsKept` | handlers/start.py:74-106 | the four commands reach their own handlers with or without arguments; `/reset_template` reaches `cmd_reset_template` |
| `Start.HelpIsCancelled` | handlers/start.py:103-131 | `/help` sent in the waiting state is cancelled, so `cmd_help` does not answer it |
| `Start.SavedTemplateIsUsed` | handlers/start.py:111-118 | a template the dialogue saves is never empty, so rendering uses it and not the built-in one |
| `Start.TemplateDialogue.constructor` | handlers/start.py:101 | no user is waiting for a template at start |
| `Start.TemplateDialogue.CmdSetTemplate` | handlers/start.py:89-101 | the sender now waits for a template; other users' states are unchanged |
| `Start.TemplateDialogue.OnText` | handlers/start.py:13-121 | `/start`, `/my_template`, `/reset_template` and `/set_template` keep the state and have their own effect on the table: a new row, nothing, a `NULL` template, nothing; any other command clears the state and saves nothing; a text without tags keeps the state and saves nothing; a text with tags is saved as the sender's template and clears the state |
| `Billing.PlanInvoice` | handlers/billing.py:16-36 | the invoice has one price of 250 in currency `XTR` and payload `pro_sub_30d` |
| `Billing.ApprovePreCheckout` | handlers/billing.py:38-44 | every pre-checkout query is approved |
| `Billing.OnSuccessfulPayment` | handlers/billing.py:46-63 | the expiry is now plus 30 days; the payer's row gets `is_pro` and that expiry and no other change; past year 9999 the handler raises and nothing changes |
| `Billing.PaymentAddsThirtyDays` | handlers/billing.py:53 | the expiry date is exactly 30 calendar days after today's date |
| `Billing.StatusText` | handlers/billing.py:85-90 | the status fails exactly for a Pro row without an expiry, and then as `None.strftime` would; `Billing.CheckStatusShows` states what a reply contains |
| `Billing.CheckStatus` | handlers/billing.py:73-90 | `/status` raises exactly when there is no row or a Pro row has no expiry |
| `Billing.CheckStatusDefined` | handlers/billing.py:85-88 | every row of a valid table has a status reply |
| `Billing.CheckStatusShows` | handlers/billing.py:85-90 | a Pro reply contains the expiry as `dd.mm.YYYY`; a free reply contains the number of free uses left |
| `Admin.AdminId` | handlers/admin.py:12 | 0 when `ADMIN_ID` is unset, otherwise what `int` makes of it, with `None` for its `ValueError` |
| `Admin.ParseGivePro` | handlers/admin.py:23-29 | too few tokens exactly when the split text has fewer than three; otherwise the two numbers are `int` of tokens 1 and 2, or an error when either is not an integer |
| `Admin.ParseArgs` | handlers/admin.py:24-29 | the same decision taken on the token list |
| `Admin.ExtraTokensIgnored` | handlers/admin.py:23-29 | two commands with the same first three tokens parse the same |
| `Admin.GiveProDecision` | handlers/admin.py:20-59 | anyone but the owner is refused; a grant carries the parsed id and days and an expiry that is now plus the days; well-formed arguments whose date is representable always grant |
| `Admin.GivePro` | handlers/admin.py:20-59 | on a grant the target row gets `is_pro` and the new expiry and nothing else; on every other reply no row changes |
| `Config.BotToken` | config.py:8-10 | start-up succeeds exactly when `BOT_TOKEN` is set and non-empty, and keeps its value |
| `Config.DeepSeekWarning` | config.py:13-20 | the warning is printed exactly when the key is unset or empty |
| `Config.DatabaseUrl` | config.py:24-31 | the URL is never empty and never starts with `postgres://`; `Config.DatabaseUrlCases` states its three cases |
| `Config.DatabaseUrlCases` | config.py:24-31 | unset or empty gives the SQLite file; `postgres://` becomes `postgresql+asyncpg://` with the rest kept; any other URL is kept as it is |
| `Config.DatabaseUrlIdempotent` | config.py:24-31 | a rewritten URL is not rewritten again |
| `Config.NoAdminsWhenUnset` | config.py:39 | no `ADMIN_IDS` means no admins |
| `Config.NonEmpty` | config.py:39 | only non-empty fragments are kept |
| `Config.ParseAllSpec` | config.py:39 | parsing succeeds exactly when every fragment is an integer, and then gives one id per fragment, in order |
| `Config.AdminIds` | config.py:39 | its contract is `Config.AdminIdsSpec`, `Config.AdminIdsRoundTrip` and `Config.NoAdminsWhenUnset` |
| `Config.AdminIdsSpec` | config.py:39 | `ADMIN_IDS` is well defined exactly when every non-empty comma-separated fragment is an integer, and then holds their values in order |
| `Config.AdminIdsRoundTrip` | config.py:39 | ids written in decimal and joined with commas read back as the same ids |
| `Numerals.NatToString` | handlers/billing.py:88 | `str(n)` is non-empty decimal digits without a leading zero |
| `Numerals.NatToStringValue` | handlers/billing.py:88 | the digits of `str(n)` denote `n` |
| `Numerals.ParseInt` | config.py:39 | `int` accepts only text that is not blank after stripping |
| `Numerals.ParseIntOfString` | config.py:39 | `int(str(i)) == i` for every integer |
| `Calendar.DaysInMonth` | handlers/billing.py:53 | every month has 28 to 31 days |
| `Calendar.YearIsItsMonths` | handlers/billing.py:53 | a year's months add up to its length, in leap and common years |
| `Calendar.DateFromDays` | handlers/billing.py:53 | a day number gives a date whose month is 1 to 12 and whose day is within that month |
| `Calendar.DateRoundTrip` | handlers/billing.py:53 | counting a date's days and converting back gives the same date |
| `Calendar.DaysRoundTrip` | handlers/billing.py:53 | converting a day number to a date and back gives the number again; the date is within year 9999 exactly when the number is below the limit |
| `Calendar.DateOf` | handlers/billing.py:53 | every instant falls on a valid date |
| `Calendar.AddDays` | handlers/billing.py:53 | adding days succeeds exactly when `timedelta` accepts the count and the sum stays before year 10000, and then moves the instant by that many whole days |
| `Calendar.AddDaysMovesDate` | handlers/billing.py:53 | adding whole days moves the calendar date by exactly that many days |
| `Calendar.Pad2` | handlers/billing.py:68 | `%d` and `%m` print two digits that denote the number |
| `Calendar.FormatDate` | handlers/billing.py:68 | `dd.mm.` followed by the year: two digits, a dot, two digits, a dot; `Calendar.FormatDateReadsBack` states the values |
| `Calendar.FormatDateReadsBack` | handlers/billing.py:68 | `dd.mm.YYYY` reads back as the day, the month and the year of the instant |
| `Text.Strip` | services/renderer.py:47-49 | `strip` returns the slice left once the whitespace at both ends is gone; what it removes is whitespace and what it keeps has none at either end |
| `Text.StripIdempotent` | services/renderer.py:47-49 | stripping twice changes nothing more |
| `Text.StripEmptyIff` | services/extractor.py:31 | a string strips to empty exactly when it is all whitespace |
| `Text.StripKeepsNonSpace` | services/renderer.py:32-35 | stripping keeps the count of every non-space character, commas included |
| `Text.Prefix` | services/extractor.py:78 | `s[:n]` is a prefix of `s` of length `min(n, len(s))` |
| `Text.IndexOf` | services/renderer.py:36 | the first occurrence of a character, or the length when there is none |
| `Text.Split` | config.py:39 | `split(c)` gives at least one part, and no part holds `c` |
| `Text.SplitJoin` | config.py:39 | joining the parts of `split(c)` with `c` gives the string back |
| `Text.JoinSplit` | config.py:39 | joining comma-free parts with commas and splitting again gives the parts back |
| `Text.SplitWhitespace` | handlers/admin.py:23 | `split()` gives non-empty tokens without whitespace |
| `Text.SplitWhitespaceKeepsText` | handlers/admin.py:23 | the tokens, end to end, are exactly the non-whitespace characters of the text, in order |
| `Text.LineBreakIsSpace` | services/extractor.py:31 | every character `splitlines` breaks at is whitespace |
| `Text.SplitLinesAllSpace` | services/extractor.py:31 | a text is all whitespace exactly when each of its lines is |
| `Patterns.RunEnd` | services/extractor.py:17-19 | a greedy character-class run stops at the first character outside the class |
| `Patterns.RunEndBound` | services/extractor.py:17-19 | no run of the class from the same start goes past the greedy run |
| `Patterns.RunEndAt` | services/extractor.py:17-19 | a run ending at a character outside the class is the greedy run |
| `Patterns.LabelEnd` | services/extractor.py:17-19 | a label match ends within the text |
| `Patterns.LabelSound` | services/extractor.py:17-19 | a label the matcher accepts matches by the regex semantics: the words case-insensitively, with `\s*` between them |
| `Patterns.LabelComplete` | services/extractor.py:17-19 | every match of a label by the regex semantics is the one the matcher finds |
| `Patterns.Labels` | services/extractor.py:17-19 | every alternative of the three patterns is a label of words |
| `Patterns.Tail` | services/extractor.py:17-19 | the group the matcher captures after the label lies within the text |
| `Patterns.TailSound` | services/extractor.py:17-19 | the captured tail matches the part after the label by the regex semantics |
| `Patterns.TailGreedy` | services/extractor.py:17-19 | of all the ways the tail can match, the matcher's group starts at the same place and is the longest |
| `Patterns.RateTailGreedy` | services/extractor.py:18 | the rate's tail, with its `\.\d{2}` ending, matches one way only, and the matcher finds it |
| `Patterns.AltAtSound` | services/extractor.py:17-19 | an alternative the matcher accepts at a position matches there by the regex semantics |
| `Patterns.AltAtGreedy` | services/extractor.py:17-19 | every match of an alternative at a position has the matcher's group start and is no longer than it |
| `Patterns.AltAtSpec` | services/extractor.py:17-19 | an alternative succeeds at a position exactly when it matches there, and then with the greedy group |
| `Patterns.TryAtSpec` | services/extractor.py:17-19 | the alternatives are tried in the pattern's order, and the first that matches is taken |
| `Patterns.SearchFromSpec` | services/extractor.py:36-43 | the search from a position finds the first position where the pattern matches, or reports that none does |
| `Patterns.Search` | services/extractor.py:36-43 | its contract is `Patterns.SearchSpec` |
| `Patterns.SearchSpec` | services/extractor.py:36-43 | `re.search` gives the leftmost match, with the first matching alternative and the greedy group; it finds nothing exactly when nothing matches anywhere |
| `Patterns.Group` | services/extractor.py:37 | `group(1)` of a match lies within the text |
| `Extractor.NonBlankStripped` | services/extractor.py:31 | the kept lines are stripped and non-empty, and there are none exactly when every line is blank |
| `Extractor.Broker` | services/extractor.py:31-34 | the broker guess is at most 100 characters, and empty exactly when the text is all whitespace; `Extractor.BrokerFromFirstThreeLines` and `Extractor.BrokerStartsWithFirstLine` state how it is built |
| `Extractor.BrokerFromFirstThreeLines` | services/extractor.py:31-34 | two texts whose first three non-blank lines agree, stripped, get the same broker |
| `Extractor.BrokerStartsWithFirstLine` | services/extractor.py:31-34 | the broker starts with the first non-blank line, stripped and cut to 100 characters; a second line follows after a single space; a lone line is the whole broker |
| `Extractor.GroupShaped` | services/extractor.py:17-19 | the captured group is empty exactly when the pattern matches nowhere; otherwise the load number is 5 to 10 digits, the rate is digits and commas ending in `.dd`, and the miles are digits, dots and commas |
| `Extractor.RegexExtract` | services/extractor.py:21-45 | the regex record has no stops, a broker of at most 100 characters, and each field empty or of its pattern's shape |
| `Extractor.RegexFieldsFollowSearch` | services/extractor.py:36-43 | each field is filled exactly when its pattern matches somewhere, and then holds the group of the leftmost greedy match |
| `Extractor.CleanFences` | services/extractor.py:125 | the cleaned reply holds no ` ``` ` |
| `Extractor.NoFenceAfterRemoval` | services/extractor.py:125 | removing every ` ``` ` left to right leaves none, even where backticks meet |
| `Extractor.AiExtract` | services/extractor.py:74-129 | without a key the AI layer gives `None`; a call that raises gives `None`; otherwise the result is `json.loads` of the de-fenced reply to the first 12000 characters, with `None` for a decode error |
| `Extractor.AiSeesOnlyPrefix` | services/extractor.py:78 | the AI result depends only on the first 12000 characters |
| `Extractor.MilesFree` | services/extractor.py:47-48 | an empty origin or destination gives `""` |
| `Extractor.Backfill` | services/extractor.py:143-148 | only `total_miles` can change; it is looked up from the first pickup's address to the last delivery's exactly when the miles are missing and both stop lists are non-empty |
| `Extractor.SmartExtract` | services/extractor.py:131-150 | an AI record is kept whole except for `total_miles`; without a true AI value the result is exactly the regex record; `Extractor.AiRecordUsedWhole` and `Extractor.FallbackIsRegex` restate both as lemmas over all inputs |
| `Extractor.AiRecordUsedWhole` | services/extractor.py:135-148 | an AI record is used whole, and only the miles backfill touches it |
| `Extractor.FallbackIsRegex` | services/extractor.py:138-140 | without a true AI value the result is exactly the regex record |
| `Extractor.NoKeyMeansRegex` | services/extractor.py:75 | without a key the bot runs on the regex extractor alone |
| `Renderer.FormatAddress` | services/renderer.py:26-39 | an empty address stays empty; a stripped address holding a line break or fewer than two commas is returned as it is; in every case the result is stripped and keeps the stripped address's comma count |
| `Renderer.SplitAtFirstComma` | services/renderer.py:35-37 | the split address is stripped, holds a line break and keeps every comma |
| `Renderer.FormatAddressIdempotent` | services/renderer.py:26-39 | formatting an address twice changes nothing more |
| `Renderer.FormatAddressSplitsAtFirstComma` | services/renderer.py:35-37 | a one-line address with two or more commas is cut at its first comma, and the two stripped halves are joined by `,\n` |
| `Renderer.CleanScalar` | services/renderer.py:47-49 | `(value or default).strip()` is stripped, and empty exactly when the value was non-empty whitespace |
| `Renderer.CleanScalarCases` | services/renderer.py:47-49 | an empty value gives the default; any other value gives its strip |
| `Renderer.CleanStop` | services/renderer.py:52-56 | the three stop attributes are stripped, and the time is empty exactly when it was blank |
| `Renderer.CleanStops` | services/renderer.py:51-57 | the cleaned list keeps every stop, in order, each one cleaned |
| `Renderer.Sanitize` | services/renderer.py:46-65 | broker, load number and rate are stripped; total miles is never empty; the defaults are stated by `Renderer.SanitizeBroker`, `Renderer.SanitizeNumbers` and `Renderer.SanitizeMilesKept` |
| `Renderer.SanitizeBroker` | services/renderer.py:47 | an empty broker becomes `Rate Confirmation`; any other is stripped |
| `Renderer.SanitizeNumbers` | services/renderer.py:48-49 | an empty load number or rate becomes `N/A`; any other is stripped |
| `Renderer.SanitizeMilesKept` | services/renderer.py:50 | an empty mileage becomes `N/A`; any other is kept as it came, not stripped |
| `Renderer.SanitizeBlankFields` | services/renderer.py:47-49 | a scalar field of the clean record is empty exactly when the extracted value was non-empty whitespace |
| `Renderer.SanitizeStops` | services/renderer.py:51-64 | the clean stop lists have the same stops, in order, each one cleaned |
| `Renderer.CleanStopIdempotent` | services/renderer.py:52-56 | cleaning a clean stop changes nothing |
| `Renderer.StopBlock` | services/renderer.py:10-14 | each stop prints as the tag and index with the facility, then the address, then a TIME line when the time is non-empty |
| `Renderer.RenderForPiece` | services/renderer.py:10-20 | a loop prints its body once per stop of its list, with `loop.index` counting from 1 |
| `Renderer.DefaultRender` | services/renderer.py:5-24 | the built-in template prints the broker, the load number, the pickup blocks, the rule, the delivery blocks, the miles and the rate, in that order |
| `Renderer.NoTripleIsNotContains` | services/renderer.py:76 | having no three newlines in a row is the same as not containing `\n\n\n` |
| `Renderer.Collapse` | services/renderer.py:76 | the collapse keeps an empty text empty, and keeps the first character when that is not a newline |
| `Renderer.CollapseNoTriple` | services/renderer.py:76 | after the collapse no three newlines are in a row |
| `Renderer.CollapseKeepsClean` | services/renderer.py:76 | text without three newlines in a row is left as it is |
| `Renderer.CollapseKeepsText` | services/renderer.py:76 | the collapse removes only newlines; every other character is kept, in order |
| `Renderer.PostProcess` | services/renderer.py:76 | the cleaned message has no three newlines in a row and no surrounding whitespace |
| `Renderer.PostProcessIdempotent` | services/renderer.py:76 | cleaning a cleaned message again changes nothing |
| `Renderer.SelectTemplate` | services/renderer.py:68 | the built-in template is used exactly when the user's template is missing or empty |
| `Renderer.TemplateErrorMessage` | services/renderer.py:78-79 | the error message is non-empty and contains the error's text |
| `Renderer.RenderResult` | services/renderer.py:67-79 | the render raises exactly when Jinja2 raises something other than a `TemplateError`, and never without a user template; `Renderer.RenderResultCases` states what the message is |
| `Renderer.RenderResultCases` | services/renderer.py:68-79 | a render gives a clean message; a `TemplateError` gives a message naming it; any other exception escapes |
| `Renderer.DefaultNeverFails` | services/renderer.py:68-76 | without a user template the built-in one is rendered, and that never fails |
| `PdfEngine.ExtractText` | services/pdf_engine.py:14-54 | the returned text has no surrounding whitespace |
| `PdfEngine.ReadDigitalText` | services/pdf_engine.py:19-30 | the page loop gathers each page's non-empty text and a newline, in order, up to a page that raises; an open that raises gives `""` |
| `PdfEngine.ReadOcrText` | services/pdf_engine.py:42-47 | the image loop gathers each image's text and a newline, in order; an image that raises gives `None` |
| `PdfEngine.ExtractTextSync` | services/pdf_engine.py:14-54 | the method computes `ExtractText`: digital text, replaced by OCR text when broken or short, then stripped |
| `PdfEngine.FailureCutsPages` | services/pdf_engine.py:22-30 | pages before a page that raises are kept; pages after it are never read |
| `PdfEngine.PagesTextAppend` | services/pdf_engine.py:24-28 | without a page that raises, the text of two runs of pages is the two texts end to end |
| `PdfEngine.BlankPageAddsNothing` | services/pdf_engine.py:26-28 | a page whose text is `None` or empty adds nothing |
| `PdfEngine.FailingImageDiscardsOcr` | services/pdf_engine.py:39-52 | an image that raises discards the whole OCR text, including what came before it |
| `PdfEngine.OcrTextKeepsEveryImage` | services/pdf_engine.py:44-46 | when every image is read, the OCR text of `n` images holds at least `n` newlines |
| `PdfEngine.NeedsOcr` | services/pdf_engine.py:34-37 | a text shorter than 50 characters always asks for OCR; `PdfEngine.GoodDigitalTextIgnoresOcr` and `PdfEngine.OcrReplacesBrokenText` state both outcomes of the test |
| `PdfEngine.GoodDigitalTextIgnoresOcr` | services/pdf_engine.py:34-37 | digital text without `(cid:` and with 50 or more characters after stripping is returned stripped, whatever OCR would give |
| `PdfEngine.OcrReplacesBrokenText` | services/pdf_engine.py:37-47 | broken or short digital text and a completed OCR give the stripped OCR text, whatever the broken text was |
| `PdfEngine.FailedOcrKeepsDigitalText` | services/pdf_engine.py:49-54 | when OCR raises, the digital text is kept, stripped |
| `PdfEngine.UnreadablePdfAsksForOcr` | services/pdf_engine.py:29-37 | a PDF that cannot be opened gives empty digital text, which always asks for OCR |
| `Processor.Admit` | handlers/processor.py:124-130 | a non-admin without a row is a stranger; a non-admin free row with no free use left is refused; admins, Pro rows and rows with free uses are admitted |
| `Processor.ItemReply` | handlers/processor.py:49-102 | the reply to an item goes to the item's chat |
| `Processor.ItemReplyDelivers` | handlers/processor.py:85-92 | an item is delivered exactly when its file was fetched and rendering gave a message, and the text sent is that message |
| `Processor.ItemReplyErrors` | handlers/processor.py:101-102 | a failing download or a render exception is sent as the error prefix followed by the exception's text; every undelivered reply starts with the prefix |
| `Processor.Answer` | handlers/processor.py:49-102 | the `try` body run step by step, downloading, reading the text, building the record and rendering, and leaving with the error message at the first step that raises, gives `ItemReply` |
| `Processor.Charged` | handlers/processor.py:94-99 | only the uploader's free-use count can change, and it goes down by one exactly for a delivered result to a non-admin, non-Pro row |
| `Processor.Charge` | handlers/processor.py:94-99 | the table after step 5 is `Charged` of the table before |
| `Processor.ChargedTimes` | handlers/processor.py:94-99 | after `n` charged deliveries the table has the same ids, every other row is unchanged, the uploader's row differs at most in its free uses, and those drop by `n` exactly when the uploader pays |
| `Processor.Orchestrator.constructor` | handlers/processor.py:18-19 | no queues and no workers at start |
| `Processor.Orchestrator.HandlePdf` | handlers/processor.py:114-145 | a refused upload changes nothing; an admitted one goes to the back of the user's queue, and a worker is started exactly when the user has none |
| `Processor.Orchestrator.ProcessNext` | handlers/processor.py:41-110 | the oldest item leaves the queue and is answered with the template read at that moment; the uploader is charged for a delivered result |
| `Processor.Orchestrator.Retire` | handlers/processor.py:111-112 | the worker leaves `user_workers`; the empty queue stays |
| `Processor.Orchestrator.DrainStep` | handlers/processor.py:41-110 | one turn of the worker loop takes one item off the queue, keeps every item before it answered in order and the table charged for the delivered ones, and keeps the worker set |
| `Processor.Orchestrator.RunWorker` | handlers/processor.py:36-112 | every queued item is answered in arrival order, and a failing item does not stop the ones after it; a paying user loses one free use per delivered result; then the worker retires |
| `Processor.ProgressPulses` | handlers/processor.py:72-83 | the pulses count up by 5 from 55, stop at 95, and number the ticks taken, at most nine |
| `Processor.QuoteIndex` | handlers/processor.py:81 | the quote index is always within the three quotes |
| `Processor.PulseQuotes` | handlers/processor.py:76-82 | over the nine pulses the quotes cycle as 2, 0, 0, 1, 1, 2, 2, 0, 0 |
| `Processor.SafeEditStatus` | handlers/processor.py:21-34 | the status edit gives the edited message, or `None` on any failure; it never raises |
| `Middlewares.CachesAfter` | utils/middlewares.py:66-72 | only the sender's entry can change; an admin's or a dropped message leaves the cache as it was |
| `Middlewares.Throttle.constructor` | utils/middlewares.py:50-53 | the limit is the one given, and the cache starts empty |
| `Middlewares.Throttle.Call` | utils/middlewares.py:55-73 | admins always pass; anyone else passes when they have no accepted message yet or the last one is at least the limit old; a passing non-admin's entry becomes now |
| `Middlewares.VerdictsFollowCache` | utils/middlewares.py:63-72 | a user's verdicts over a run of messages are the ones the cache gives, message by message |
| `Middlewares.AcceptedAreSpaced` | utils/middlewares.py:67-72 | with a non-negative limit, any two accepted messages of a user are at least the limit apart |
| `Middlewares.Refreshed` | utils/middlewares.py:36-41 | a Pro account whose expiry has passed stops being Pro; nothing else changes, the expiry included |
| `Middlewares.RefreshedIdempotent` | utils/middlewares.py:38-41 | refreshing twice at the same moment changes nothing more |
| `Middlewares.Subscription` | utils/middlewares.py:12-47 | commands, non-PDF updates, admins, a failing read and unknown ids change nothing; otherwise the sender's row is refreshed and handed on |

## Left out

- `\d` in the three patterns is read as the ASCII digits. Python also matches other Unicode decimal digits there.
- `re.IGNORECASE` is modelled for the label letters, including the non-ASCII letters that fold onto them. Full Unicode case folding is not.
- A key missing from a record is the same as an empty value. Python would raise `KeyError` in `smart_extract` for a stop without `address`. It would also raise on an AI value that is not an object of strings and lists; such values are not modelled.
- Jinja2 on a user's template is a parameter. services/renderer.py:72 builds a plain `jinja2.Template`, not a sandboxed one, so a user's template can reach whatever Jinja2 exposes; an unconstrained `jinja` function is the model's only stand-in for that. The built-in `DEFAULT_TEMPLATE` is given as the syntax tree Jinja2 reads it as, after its `-%}` whitespace control, and is rendered by the model itself.
- Calendar.FormatDate: prints the year without padding, as glibc's `strftime` does; other C libraries pad it to four digits.
- Numerals.ParseInt: does not model Python's 4300-digit limit on `int` or non-ASCII digits.
- Processor.Charged: the count can go below zero, as in the code. Uploads already queued are charged after the gate has been passed, so nothing asserts that free uses stay non-negative.
- Renderer.CleanScalar: not idempotent for a whitespace-only value, and neither is Renderer.Sanitize. `or` keeps that value and strip empties it, so a second pass would put in the default. The model states this rather than idempotence.
- The network is not modelled: Telegram, DeepSeek, Nominatim and OSRM. The PDF libraries are not modelled either. Each appears only as the results it can return.
- asyncio is not modelled. The event loop is a sequence of atomic steps: `HandlePdf` is an upload, `ProcessNext` one processed item, `Retire` a worker ending. `RunWorker` drains a queue with no upload arriving meanwhile; interleaving is by calling the single steps in any order.
- The `done()` case of a worker entry and the early return at handlers/processor.py:37-38 cannot arise in the model. A worker's entry is removed only by its own `finally`, and a worker exists only with its queue.
- Failures of `send_message`, of `delete_message` and of the temporary file in the worker are not modelled.
- Processor.ItemReply: some `send_message` failures are predictable, and the model does not see them: an empty post-processed render of a user's template, a message over 4096 characters, and a Markdown entity error, since handlers/processor.py:92 sends the HTML-formatted output with `parse_mode="Markdown"`. In each of these the source sends the error message instead and charges nothing, while the model delivers the result and charges for it.
- The status texts of the progress edits are not modelled beyond `ProgressPulses`, `PulseQuotes` and `SafeEditStatus`. The 1.5-second sleep becomes the count of ticks the AI task takes, given as a parameter.
- The random replies of `sassy_chat` are not modelled. Neither are the welcome, help, notification and success texts, beyond what the contracts above state about them.
- Start.TemplateDialogue.OnText: a command word with an `@mention` is taken as addressed to this bot. aiogram compares the mention with the bot's username, and on a mismatch the text passes on to `auto_cancel_template`. The replies of the four routed commands are those of `Start.CmdStart`, `Start.CurrentTemplate` and the fixed texts, and `OnText` does not return them. Captions are not read.
- The FSM state of the template dialogue is keyed by user. aiogram keys it by chat and user, which is the same for private chats.
- main.py, database/connection.py, utils/states.py and handlers/settings.py are not part of this model. They wire the routers and middlewares, open the database, declare FSM states and hold more handlers.
- utils/states.py declares only `SettingsStates` and `BillingStates`. handlers/start.py:9 imports `TemplateStates`, which does not exist, so importing `handlers.start` at main.py:8 raises `ImportError` and the bot as written never starts. The model of the template dialogue takes the intended state `TemplateStates.waiting_for_template` (handlers/start.py:101-108) to exist.
- Three facts about that wiring are not modelled. main.py never includes the admin router, so `/givepro` is modelled as written but is unreachable in the running bot. database/connection.py reads `DATABASE_URL` itself, so the rewrite in config.py never reaches the engine. handlers/settings.py repeats handlers that start.py registers first.
- The surrogate `id` column is not modelled. Rows are keyed by the unique `tg_id`.
- Middlewares.Subscription: `dbFails` models a read that fails before any change commits. A commit that fails after `is_pro` was cleared in memory is not modelled.
- The throttle's times are `real` timestamps passed in; `datetime.now()` is not read.
