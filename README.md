# Random quote generator: the quote list and its sync merge

This project models the list logic of a browser "random quote generator" page.
The page holds an ordered list of quote records (`{text, category}`) and does the following:

- It loads the list from local storage and seeds an empty list with three defaults.
- It derives the distinct categories for a filter control and restores the last chosen filter.
- It shows a random quote of the selected category.
- It lets the user add a quote through a form and import quotes from a JSON file.
- It periodically fetches posts from a mock server and merges them into the list.

The merge keeps the local record whenever texts collide and appends only new texts.

Two versions of the page are modelled:

- `script.js` is the full page. It is modelled by module `QuoteApp` (class `QuoteBoard`, whose fields are the list, the two storage keys, the filter control and the quote area). Pure parts live in `Catalog` (categories, filter fallback, candidate selection), `Intake` (add validation, import filtering, export, server mapping) and `Strings` (`String.prototype.trim`).
- `dom-manipulation/script.js` is a smaller sync script that merges in place. It is modelled by module `DomSync` (class `SyncClient`).

The rule both merges follow is `Quotes.Merged`: each candidate in turn is appended unless a record of the working list already has its text. The working list includes candidates appended earlier in the same call. Both loops are proved to compute it. Lemmas prove the following about it:

- It only appends.
- It adds every server text and no other.
- The texts it appends are new and pairwise distinct.
- It appends exactly the first occurrence of each new text, in batch order (`NewFrom` is an independent, index-wise description).
- A second merge of the same batch changes nothing.

JavaScript values are modelled by `Quotes.Value`, with `Undefined` for an absent property. This makes the text of a record a `Value` rather than a string, for three reasons:

- The import accepts any truthy `text`.
- `fetchFromServer` uses `item.title || item.body || ""`.
- The other script uses `post.title`, which may be undefined.

Random choice is a parameter `random` in [0, 1), the range `Math.random` promises.

Four behaviours of the code are easy to misread, and the model keeps them as written:

- A failed import does not always leave the list untouched. A payload that is not an array changes nothing. For an array with a `null` entry, reading `obj.text` throws after the earlier entries were pushed: those records stay in the in-memory list but are not saved, and the categories and quote area are not refreshed (`ImportFromJsonFile`).
- Export followed by import reproduces the list only when every record has a truthy text (`ExportImportRoundTrip`). A server quote whose title and body are both empty gets text `""`, and the import drops it (`ExportDropsFalsyText`).
- Start-up seeds the defaults whenever the loaded list is empty: when storage is absent, when it does not parse, when it is not an array, and also when it holds an empty array (`QuoteBoard` constructor).
- The restored filter falls back to `"all"` when the saved value is the empty string, even if `""` is a known category (`SelectedFilter`).

## Model

| member | source | states |
|---|---|---|
| Quotes.MergedExtends | script.js:171-178 | the list before the merge is a prefix of the list after it, so no existing record or category is overwritten; the list grows by at most the batch size |
| Quotes.MergedTexts | script.js:172-177 | after the merge a text is present iff it was in the list or on some server quote: every server text ends up in the list |
| Quotes.MergedAppendsFresh | dom-manipulation/script.js:47-53 | each appended record's text differs from the text of every record before it: appended texts are new to the list and pairwise distinct |
| Quotes.MergedAsNewFrom | script.js:172-177 | the merge appends exactly the candidates whose text is neither in the list nor on an earlier candidate, in batch order |
| Quotes.MergedIdempotent | script.js:173-175 | merging the same batch a second time appends nothing |
| Quotes.Merged | script.js:172-177 | definition of the merge loop as a fold of `MergeOne` over the batch; its properties are in `MergedExtends`, `MergedTexts`, `MergedAppendsFresh`, `MergedAsNewFrom` and `MergedIdempotent` |
| Quotes.MergeOne | dom-manipulation/script.js:48-52 | definition of one loop turn: push the candidate unless a record has its text; its properties are in the `Merged` lemmas |
| Quotes.HasText | script.js:173 | definition of `some(q => q.text === t)`; its properties are in `HasTextConcat` and `MergedTexts` |
| Quotes.HasTextConcat | script.js:173 | a text is in `a + b` iff it is in `a` or in `b` |
| Quotes.Truthy | script.js:134 | definition of JavaScript truthiness (undefined, null, false, 0 and "" are falsy); its properties are in `ExportDropsFalsyText` and `NewQuote` |
| Quotes.Or | script.js:160 | definition of `a \|\| b`; its properties are in `ServerQuotes` |
| Quotes.Prop | script.js:134-135 | definition of a property read on a non-null value, undefined when absent; its properties are in `Export` and `ServerQuotes` |
| Quotes.Nullish | script.js:134 | definition of the values (undefined, null) whose property read throws, as `obj.text`, `item.title` and `post.title` do; its properties are in `FirstNullish`, `ServerQuotes` and `PostQuotes` |
| Quotes.FirstNullish | script.js:133-134 | the index of the first null entry (where reading a property throws), or the length when there is none; all entries before it are non-null |
| Quotes.Leading | script.js:159 | `slice(0, 5)`: the first min(5, n) items, in order |
| Strings.IsSpace | script.js:87-88 | definition of the code points `trim()` removes, the ECMAScript WhiteSpace and LineTerminator set; its properties are in `Trim` and `NewQuote` |
| Strings.AllSpace | script.js:87-88 | definition of a string that `trim()` empties; its properties are in `Trim` and `NewQuote` |
| Strings.Trim | script.js:87-88 | the result is the middle of the input between a leading and a trailing whitespace run, starts and ends with a non-space, and is empty iff the input is all whitespace |
| Catalog.Categories | script.js:45 | the categories of the list, each exactly once: c is listed iff some record has category c |
| Catalog.CategoriesFirstSeen | script.js:45 | the categories come in first-seen order: each listed category occurs before the first occurrence of every later one |
| Catalog.SelectedFilter | script.js:53-58 | the restored filter is "all" or a known category; it equals the saved value iff that is non-empty and is "all" or a known category, and otherwise it is "all" |
| Catalog.Candidates | script.js:65-67 | definition of the candidate set: the whole list for "all", else `OfCategory`; its properties are in `Pick` and `PickReaches` |
| Catalog.OfCategory | script.js:67 | the filtered list holds every record of the category with its multiplicity and no record of another category |
| Catalog.PickIndex | script.js:73 | `Math.floor(random * n)` for random in [0, 1) is an index in [0, n) |
| Catalog.Pick | script.js:65-77 | the "No quotes found" state iff the candidate set is empty; otherwise a record of the list of the selected category (any record for "all"); the list is an input only |
| Catalog.PickReaches | script.js:73-74 | every candidate can be chosen: candidate k is shown for random = k/n |
| Catalog.KnownFilterShows | script.js:65-74 | with a filter that is "all" or a known category, a non-empty list always shows a quote |
| Intake.NewQuote | script.js:87-94 | the add is rejected iff the text or the category is all whitespace; otherwise the record holds the two trimmed, non-empty fields |
| Intake.Accepted | script.js:133-137 | for entries before the first null one (where the import applies it), the import pushes every entry with a truthy text and a string category, and every pushed record has a truthy text |
| Intake.AcceptedFromEntries | script.js:134-135 | every pushed record is built from an accepted entry |
| Intake.AcceptedSingle | script.js:134-135 | one entry pushes exactly its record when it has a truthy text and a string category, and nothing otherwise |
| Intake.AcceptedStep | script.js:133-136 | one more turn of the import loop pushes the record of entry i exactly when that entry is accepted |
| Intake.AcceptedConcat | script.js:133-137 | for entries none of which is null, importing `a + b` pushes the records of `a` followed by those of `b`: each accepted entry is pushed once, in entry order |
| Intake.Accepts | script.js:134-135 | definition of the import guard (a truthy `text` and a string `category`); its properties are in `AcceptedSingle` and `Accepted` |
| Intake.RecordOf | script.js:135 | definition of the pushed record `{text, category}`; its properties are in `AcceptedSingle` and `AcceptedFromEntries` |
| Intake.ServerText | script.js:160 | definition of `item.title \|\| item.body \|\| ""`; its properties are in `ServerQuotes` |
| Intake.ExportRecord | script.js:108 | definition of one record as `JSON.stringify` writes it and JSON.parse reads it back; its properties are in `Export` |
| Intake.Export | script.js:107-108 | the export is an array with one object per record, in list order; object i is non-null, its `text` is record i's text and its `category` is record i's category |
| Intake.ExportImportRoundTrip | script.js:133-136 | importing an export of a list whose texts are truthy throws nowhere and reproduces the list |
| Intake.ExportDropsFalsyText | script.js:134 | a record with a falsy text does not survive export and import |
| Intake.ServerQuotes | script.js:159-162 | fails iff the response is not an array or one of its first five items is null; otherwise at most 5 records, in server order, text the title, else the body, else "", category "Server" |
| QuoteApp.Defaults | script.js:204-208 | the seed is three records, each with a truthy text and a non-empty category, with pairwise distinct categories |
| QuoteApp.QuoteBoard.constructor | script.js:202-212 | start-up: a non-empty stored array becomes the list; otherwise the three defaults are seeded and saved; filter restored and saved, a quote picked |
| QuoteApp.MergeIntoCopy | script.js:170-178 | the loop over the copy computes the merge of the batch, keeps the list as its prefix, and counts exactly the records appended (at most the batch size) |
| QuoteApp.StartupShowsQuote | script.js:202-212 | the list after start-up is never empty, so start-up always shows a quote |
| QuoteApp.QuoteBoard.SeedDefaults | script.js:203-210 | the seeding branch of start-up: the list becomes the three defaults and is saved; the filter and the quote area are untouched |
| QuoteApp.QuoteBoard.LoadQuotesFromStorage | script.js:26-38 | stored data replaces the list only when it parsed to an array; nothing else changes |
| QuoteApp.QuoteBoard.SaveQuotesToStorage | script.js:40-42 | the storage key holds the current list |
| QuoteApp.QuoteBoard.PopulateCategories | script.js:44-59 | the filter control gets the restored filter, which is "all" or a known category |
| QuoteApp.QuoteBoard.FilterQuotes | script.js:61-79 | the filter is saved and the quote area shows Pick; the list is unchanged |
| QuoteApp.QuoteBoard.AddQuote | script.js:86-104 | rejected iff a field is all whitespace, and then nothing changes; otherwise exactly one record of the trimmed fields is appended, saved, and the page refreshed |
| QuoteApp.QuoteBoard.ImportFromJsonFile | script.js:123-151 | a non-array payload changes nothing; otherwise the accepted entries before the first null entry are appended in order; only when there is no null entry is the list saved and the page refreshed |
| QuoteApp.QuoteBoard.PushAccepted | script.js:133-137 | the import loop appends the records of the accepted entries before the first null entry, in order, and touches nothing but the list; it completes iff there is no null entry |
| QuoteApp.QuoteBoard.FetchFromServer | script.js:154-167 | a failed fetch or mapping changes nothing; otherwise the mapped server quotes are merged |
| QuoteApp.QuoteBoard.HandleServerData | script.js:169-186 | the list becomes the merge of the batch; conflicts is the number of records appended; when it is 0 nothing changes, otherwise the list is saved and the page refreshed |
| DomSync.PostQuotes | dom-manipulation/script.js:13-16 | fails iff the response is not an array or one of its first five items is null; otherwise at most 5 records, in server order, text the post's title, category "Server" |
| DomSync.SyncClient.ResolveConflicts | dom-manipulation/script.js:44-61 | the list becomes the merge of the batch, pushed in place; localUpdated iff something was pushed; the list is persisted only then |
| DomSync.SyncClient.FetchQuotesFromServer | dom-manipulation/script.js:6-22 | a failed fetch or mapping changes nothing; otherwise the mapped posts are merged |
| DomSync.ResolveTwice | dom-manipulation/script.js:47-54 | a second resolveConflicts with the same batch reports no update and changes neither the list nor the storage |

## Left out

- Rendering is not modelled: the DOM lookups, `textContent`/`innerHTML`, option elements, feedback colours and messages, and the quote and category strings (including the mis-encoded dash). The quote area is the abstract `Display`.
- Event listeners, the `setInterval` periodic syncs, `setTimeout` dismissal, `alert` and the sync notification are not modelled. Overlapping fetches are a concurrency concern outside this sequential model.
- `fetch`, `response.json()` and the POST in `syncQuotes` (dom-manipulation/script.js:25-41) are network I/O. A sync takes the parsed response, or None when the fetch or the parse failed.
- `FileReader`, the early return when no file is chosen (script.js:125, which changes nothing), and the `Blob` download of the export are browser I/O. The import takes what JSON.parse made of the file, or None when parsing failed. The export is the value JSON.parse would read back.
- JSON text is not modelled. Parsing and serialising are abstracted, and storage is abstracted as `StoredQuotes`/`Option<seq<Quote>>`, assuming a saved list reads back unchanged.
- The elements of a stored array are taken to be quote records with a string category. The code does not check their shape.
- `Math.random` is a parameter in [0, 1). Floating-point rounding of `random * n` and JSON numbers (NaN, -0) are not modelled; numbers are reals.
- Merge text comparison is structural `Value` equality. JavaScript `===` compares object- or array-valued texts by reference; such texts arise only from imports or odd server data.
- Strings are sequences of Unicode scalar values, while JavaScript strings are UTF-16 code units, so a JSON string holding a lone surrogate (such as `"\ud800"`) cannot be represented. On every other string, `trim()` and `===` behave the same in the model.
- `Prop` reads only the properties this model uses. It treats strings, numbers, booleans and arrays as having none of them.
- `populateCategories` is not defined in dom-manipulation/script.js. After a merge that pushed something, the call at dom-manipulation/script.js:58 throws a ReferenceError once the list is persisted; the catch at lines 19-21 only logs it, so the notification at line 59 never appears. `SyncClient` therefore ends each sync at persistence, which is where the code stops.
- The `DOMContentLoaded` handler calls `populateCategories()` first (dom-manipulation/script.js:79), which throws the same ReferenceError, so the initial sync at line 80 never runs. Only the periodic syncs registered at line 75 reach `fetchQuotesFromServer`, and `FetchQuotesFromServer` models one of them.
- The initial list `JSON.parse(localStorage.getItem('quotes')) || []` (dom-manipulation/script.js:3) is not modelled. `SyncClient`'s constructor takes the initial list and storage content.
