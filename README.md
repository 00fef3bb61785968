# expense-tracker, modelled in Dafny

This project models the core of a small expense tracker written in TypeScript.
A seven-step web form collects an expense: user, category, sub-category, an
optional description, amount, date, an optional receipt URL and notes. The form
submits it to an Express server. The server validates the body against a
shared insert schema and keeps the record in an in-memory store. A separate
service turns an expense into the properties of a page in a Notion database.

The modules follow the program's files:

- `Wrappers` (wrappers.dfy): `Option` and `Result`.
- `Schema` (schema.dfy) models shared/schema.ts. It contains:
  - the category catalog;
  - the amount rule, `parseFloat(val)` is a number and greater than zero, over an exact decimal model of `parseFloat`;
  - the insert schema as a function from a request body, a map from keys to values, to either the record or the list of failures.
- `Wizard` (wizard.dfy) models client/src/pages/expense-form/index.tsx. It contains:
  - the page's panels, buttons and select options as predicates over the step and the category;
  - the schema check the form runs before it submits;
  - a class `ExpenseForm` holding the step and the values, with methods for Next, Previous, setting a field, setting the date and submitting.
- `Storage` (storage.dfy) models server/storage.ts. It contains:
  - the class `MemStorage`, with its id counter;
  - the expense `Map`, modelled as a key list in insertion order plus a map.
- `Routes` (routes.dfy) models server/routes.ts: the POST and GET handlers as methods over a `MemStorage`.
- `Notion` (notion.dfy) models server/services/notion.ts. It contains:
  - the page request built for an expense;
  - the wrapping of every client failure into one error;
  - the Amount number as a parameter standing for `parseFloat`, so that amounts written differently but denoting the same number give the same page;
  - a read-back function showing that the page loses only two things: the difference between null, absent and empty optional text, and how the amount is written beyond the number it denotes.

Some inputs come from outside the model and are parameters:

- Clock readings: the form's default date and the store's `createdAt`.
- The outcome of the form's HTTP request.
- The environment variables read by the Notion service.
- The Notion client itself.

Behaviours the code does not have, and the model does not add:

- The form does not check a step before moving to the next one. `NextStep` validates nothing.
- Step 4 shows nothing unless the category is the Misc category. The step is not skipped.
- Changing the category does not clear the sub-category (`CategoryChangeKeepsSubCategory`).
- Submitting needs only a positive amount and a date (`ValidateOnlyChecksAmountAndDate`).
- The POST handler writes only to the store; nothing writes to both the store and Notion.

## Model

| member | source | states |
|---|---|---|
| Schema.Keys | shared/schema.ts:44-54 | `Object.keys` of the catalog has one name per entry, in the entries' order |
| Schema.CatalogKeysMatchSchema | shared/schema.ts:30-54 | the catalog's keys are exactly the nine keys of `categorySchema`, in the same order |
| Schema.CategoryNames | client/src/pages/expense-form/index.tsx:104 | the category select's options: the catalog's names in key order, equal to `categorySchema`'s keys (`Schema.CatalogKeysMatchSchema`) |
| Schema.CategoryNamesDistinct | shared/schema.ts:44-54 | no category name occurs twice |
| Schema.SubCategoryListsWellFormed | shared/schema.ts:44-54 | every category has a non-empty sub-category list with no repeats |
| Schema.LookupInFinds | shared/schema.ts:44-54 | with distinct keys, a lookup of the i-th key returns the i-th list |
| Schema.LookupInMisses | shared/schema.ts:44-54 | a lookup of a key not in the catalog returns nothing |
| Schema.LookupMatchesCatalog | shared/schema.ts:44-54 | `categories[c]` is the catalog's own list for every category, and defined exactly for the category names |
| Schema.MiscIsOther | shared/schema.ts:53 | the Misc category offers exactly `["Other"]` |
| Schema.MaintenanceShared | shared/schema.ts:45-51 | "Maintenance" is listed under exactly Transportation, Rental Property and Home |
| Schema.Lookup | shared/schema.ts:44-54 | `categories[c]`: the list stored under `c`, or nothing when `c` is no own key of the catalog |
| Schema.ParseFloat | shared/schema.ts:21 | `parseFloat` over the modelled grammar: white space, an optional sign, digits with an optional fraction, as an exact decimal; nothing (NaN) without a digit |
| Schema.AmountAccepted | shared/schema.ts:21-23 | the `refine`: the parse is a number greater than zero |
| Schema.ParseInsert | shared/schema.ts:18-25 | `insertExpenseSchema.parse`: the record built from the eight schema keys when no field fails, else every field's failures in field order, the amount's carrying the message "Amount must be a positive number" and an Invalid Date an invalid-date failure |
| Schema.LeadingDigits | shared/schema.ts:21 | the longest all-digit prefix of a string, as `parseFloat` scans it |
| Schema.DigitsValuePositive | shared/schema.ts:21 | a digit string denotes a positive number iff one of its digits is not 0 |
| Schema.UnsignedIntegerParsed | shared/schema.ts:21-23 | in the modelled grammar, which has no exponent, digits followed by anything but a digit or a point parse as those digits; accepted iff a digit is non-zero |
| Schema.UnsignedDecimalParsed | shared/schema.ts:21-23 | "digits.digits" parses to the exact decimal; accepted iff some digit is non-zero |
| Schema.LeadingSpaceIgnored | shared/schema.ts:21 | white space before the amount does not change its parse |
| Schema.NegativeRejected | shared/schema.ts:21-23 | no amount starting with "-" is accepted |
| Schema.AcceptedExamples | shared/schema.ts:21-23 | "45.00" and "12abc" pass the amount rule |
| Schema.RejectedExamples | shared/schema.ts:21-23 | "-5", "0", "" and "abc" fail the amount rule |
| Schema.ParseInsertAccepts | shared/schema.ts:5-25 | a body is accepted iff the three not-null texts and amount are strings, amount passes its rule, date is a valid Date (not an Invalid Date) and the nullable texts are absent, null or strings; the record then copies the body's values; a rejection always lists at least one failure |
| Schema.SameFieldsSameParse | shared/schema.ts:18-25 | the outcome depends only on the eight schema keys |
| Schema.UnknownKeysIgnored | shared/schema.ts:18-25 | setting or deleting any key outside the schema never changes the outcome |
| Schema.IdAndCreatedAtDropped | shared/schema.ts:18-19 | a client-sent `id` or `createdAt` has no effect on the record |
| Schema.DateTextRejected | shared/schema.ts:24 | a date given as text is always refused, with a wrong-type failure on `date` |
| Schema.InvalidDateRejected | shared/schema.ts:24 | a Date whose time is NaN is always refused, with an invalid-date failure on `date` |
| Schema.CategoryReplaced | shared/schema.ts:8 | in an accepted body any string can replace the category and the body stays accepted, with only that field changed |
| Schema.SubCategoryReplaced | shared/schema.ts:9 | in an accepted body any string can replace the sub-category and the body stays accepted, with only that field changed |
| Schema.CatalogNotEnforced | shared/schema.ts:8-9 | the schema does not tie category and sub-category to the catalog: any pair of strings is accepted in an accepted body |
| Wizard.DefaultValues | client/src/pages/expense-form/index.tsx:28-37 | every text field empty and the date the clock reading at creation |
| Wizard.PanelShown | client/src/pages/expense-form/index.tsx:77-192 | panel k is shown iff the step is k, and for k = 4 the category is also "Misc (please describe)" |
| Wizard.ShowsPrevious | client/src/pages/expense-form/index.tsx:195 | the Previous button is shown iff step > 1 |
| Wizard.ShowsNext | client/src/pages/expense-form/index.tsx:200 | the Next button is shown iff step < 7 |
| Wizard.ShowsSubmit | client/src/pages/expense-form/index.tsx:200-208 | the Submit button is shown iff Next is not |
| Wizard.SubCategoryDisabled | client/src/pages/expense-form/index.tsx:118 | the sub-category select is disabled iff the category is empty |
| Wizard.SubCategoryOptions | client/src/pages/expense-form/index.tsx:124-125 | no options for the empty category, else the catalog lookup of the category |
| Wizard.AsBody | client/src/pages/expense-form/index.tsx:26-37 | the values as the resolver receives them: seven strings, and the date when one is set |
| Wizard.Validate | client/src/pages/expense-form/index.tsx:26-27 | the resolver runs the insert schema on the form's values |
| Wizard.AtMostOnePanel | client/src/pages/expense-form/index.tsx:77-192 | at most one panel is shown, and it is the current step's |
| Wizard.PanelsByStep | client/src/pages/expense-form/index.tsx:77-192 | every step shows its own panel, except step 4, which shows the description panel iff the category is Misc and nothing otherwise |
| Wizard.ButtonsByStep | client/src/pages/expense-form/index.tsx:195-208 | Previous is shown iff step > 1, Next iff step < 7, Submit iff step = 7; exactly one of Next and Submit |
| Wizard.SubCategoryOptionsFromCatalog | client/src/pages/expense-form/index.tsx:118-129 | with no category the select is disabled and lists nothing; a catalog category lists its non-empty list; any other category has no list |
| Wizard.AsBodyFields | client/src/pages/expense-form/index.tsx:26-37 | the resolver sees every text field as a string and the date as a Date when one is set |
| Wizard.ValidateOnlyChecksAmountAndDate | client/src/pages/expense-form/index.tsx:26-27 | the form's values pass iff the amount passes its rule and a date is set; the record carries the values, optional texts included |
| Wizard.DefaultsRejected | client/src/pages/expense-form/index.tsx:28-37 | the untouched form fails with one issue: the empty amount is not positive |
| Wizard.ExpenseForm.constructor | client/src/pages/expense-form/index.tsx:23-37 | a new form is at step 1 holding the default values |
| Wizard.ExpenseForm.NextStep | client/src/pages/expense-form/index.tsx:66 | step becomes min(step + 1, 7); values unchanged; step stays in 1..7 |
| Wizard.ExpenseForm.PrevStep | client/src/pages/expense-form/index.tsx:67 | step becomes max(step - 1, 1); values unchanged; step stays in 1..7 |
| Wizard.ExpenseForm.SetText | client/src/pages/expense-form/index.tsx:82-190 | only the chosen text field changes, to the given text |
| Wizard.ExpenseForm.SetDate | client/src/pages/expense-form/index.tsx:173 | only the date changes, possibly to undefined |
| Wizard.ExpenseForm.Submit | client/src/pages/expense-form/index.tsx:45-74 | values are sent iff they pass the schema, at any step; a success resets to the defaults and step 1; a rejection or failure changes nothing |
| Wizard.CategoryChangeKeepsSubCategory | client/src/pages/expense-form/index.tsx:98-117 | after picking Home, then Maintenance, then Yoshi, the sub-category is still Maintenance |
| Storage.IdMap.Set | server/storage.ts:24 | `Map.prototype.set`: an existing key keeps its place and gets the new value; a new key goes last |
| Storage.IdMap.Values | server/storage.ts:29 | `values()` yields one entry per key, in insertion order |
| Storage.SetFreshKey | server/storage.ts:24 | `set` with a new key appends it, keeps the map well formed and appends its value to `values()` |
| Storage.MemStorage.Valid | server/storage.ts:9-24 | the invariant the store keeps: each entry sits under its own id, ids are at least 1 and below the counter, and increase in insertion order |
| Storage.MemStorage.constructor | server/storage.ts:12-15 | a new store is empty and its counter is 1 |
| Storage.MemStorage.CreateExpense | server/storage.ts:17-26 | the record gets the counter's id and the given time, goes in under that previously unused id, the counter moves up by one and the listing gains exactly that record at its end |
| Storage.MemStorage.GetExpenses | server/storage.ts:28-30 | the listing holds every stored expense once, in insertion order, which is increasing id order, each under its own id; nothing changes |
| Routes.PostExpenses | server/routes.ts:7-15 | a rejected body gets 400 "Invalid expense data" and leaves the store untouched; an accepted one is stored exactly once and the reply is the created record with its new id |
| Routes.GetExpenses | server/routes.ts:17-20 | the reply is 200 and exactly the store's current listing, in increasing id order |
| Routes.PostThenGet | server/routes.ts:7-20 | after an accepted POST, GET lists the earlier listing plus the record the POST replied with |
| Notion.OrEmpty | server/services/notion.ts:65 | defaulting optional text gives the text itself when it is truthy and "" otherwise |
| Notion.Interpolate | server/services/notion.ts:26 | an environment variable in a template literal: its text, or "undefined" when unset |
| Notion.ReceiptPrefix | server/services/notion.ts:26-31 | "https://", the slug, ".", the owner and ".repl.co" |
| Notion.ReceiptUrl | server/services/notion.ts:26-31 | the link is the https app host followed by the receipt path, unchanged |
| Notion.ReceiptFiles | server/services/notion.ts:23-34 | the files list is empty iff the receipt path is null, absent or empty; otherwise it holds exactly one external file named "Receipt" with the link |
| Notion.BuildPage | server/services/notion.ts:36-96 | selects and date are copied verbatim, description and notes default to "", the Amount is the given `parseFloat` applied to the amount text, and the files list is the receipt list |
| Notion.AddExpenseToNotion | server/services/notion.ts:18-104 | the result is the client's response iff the page was created; any failure becomes the single error "Failed to save expense to Notion" |
| Notion.FailuresIndistinguishable | server/services/notion.ts:100-103 | failures with different reasons are reported identically |
| Notion.FromText | server/services/notion.ts:65 | reading a page's text back: "" means missing, and defaulting again gives the same text |
| Notion.Canonical | server/services/notion.ts:59-94 | the canonical form keeps each optional text's truthiness and defaulted text |
| Notion.ApartFromAmount | server/services/notion.ts:70-73 | the expense with its amount text blanked, which is all the page keeps besides the Amount number |
| Notion.ReadBackBuildPage | server/services/notion.ts:40-95 | reading the page back gives the canonical expense apart from its amount text, and the Amount number of that text |
| Notion.BuildPageIgnoresFalsyForm | server/services/notion.ts:24-90 | null, absent and empty optional texts produce the same page |
| Notion.SamePageIff | server/services/notion.ts:40-95 | two expenses give the same page iff their canonical forms agree apart from the amount text and their amounts have the same number |
| Notion.ExactNumber | server/services/notion.ts:72 | the number `parseFloat` reads, kept exact; it exists iff the parse does, and is positive iff the amount passes the schema's rule |
| Notion.FortyFive | server/services/notion.ts:72 | "45", "45.00", " 45" and "45abc" all read as the number 45 |
| Notion.AmountSpellingsCollide | server/services/notion.ts:70-73 | expenses differing only in writing 45 as "45", "45.00", " 45" or "45abc" produce the same page |

## Left out

- `parseFloat` is modelled only for leading white space, an optional sign, digits, and an optional point followed by digits. Exponents, "Infinity", rounding to a double and underflow to 0 are not modelled. For example, "1e-400" is accepted here but rejected by the real parse, and "Infinity" is the other way round.
- Absent and null are the same `None` in a request body and in the stored record. The source keeps them apart: `.nullable().optional()` keeps a `null` and leaves an absent key absent, `createExpense` spreads the record into the stored expense, and GET sends back `"description": null` in one case and no key in the other. The model merges these two stored shapes.
- The `decimal(10, 2)` precision of the amount column is not checked, because the schema does not enforce it either.
- The JSON boundary between browser and server is not modelled. A Date the form holds travels as text, and `Schema.DateTextRejected` states how the server's schema treats text. With a standard JSON body parser, `req.body.date` is therefore never a Date, so every POST from the form gets 400; the accepted branch of `Routes.PostExpenses` and `Routes.PostThenGet` is reached only through a body parser that turns the date back into a Date, which is not part of this model.
- The Amount number of the Notion page is a parameter standing for `parseFloat`, because the real number is a floating-point value. `Notion.ExactNumber` is one choice for it, exact rather than rounded.
- The Notion network call, the API key, the `process.env` lookups and console logging are not modelled. The environment strings and the client are parameters.
- The React rendering, the toast messages, `react-hook-form` internals and the asynchronous request are not modelled. Requests run one at a time in the model, and their outcome is a parameter.
- The Express server setup and the concurrency between requests are not modelled. Each handler runs to completion on its own.
- Routes.PostExpenses: the 400 reply for an error thrown by `createExpense` is not modelled, because `createExpense` in the model always succeeds.
- Storage.MemStorage.CreateExpense: ids are unbounded integers. In the source, `currentId++` on a JavaScript number stops growing at 2^53, after which ids would repeat and overwrite entries, and a `Map` throws a RangeError past its size limit. Neither limit is modelled.
- Schema.Lookup: an inherited name such as "toString" or "constructor" gives a non-list value in the source rather than `undefined`; the model gives nothing. Either way the sub-category select cannot render a list for it.
- server/routes/expenses.ts, the Progress bar component and the step wrapper component are not part of this model.
- The `User` select offers the fixed names "Tyler" and "Alexa". The model takes any string, as the schema does.
