# DocScanner core, modelled in Dafny

DocScanner is a React Native app. It photographs a document, asks a
chat-completion engine to return the document's fields as JSON, lets the user
review and edit those fields, and keeps a searchable local history. This
project models the three parts of it that carry logic:

- **The record store** (`services/StorageService.js`). All saved documents
  form one list, persisted under the `'@documents'` key. Every operation
  except `clearAll` reads the whole list. Save and delete write the whole
  list back, update does so only when a record matched, and `clearAll`
  removes the key without reading or writing a list.
  The model is the class `StorageService.DocumentStore`. Its field
  `persisted` is the stored slot, and `None` means the key is absent. Each
  operation is one atomic step over that field, and each method is proved
  against a pure function of the old list: `NewDocument`, `UpdateAt`,
  `WithoutId` and `Matching`.
- **Handling the engine's reply** (`services/OpenAIService.js`). This covers:
  - the API-key check in the constructor;
  - the greedy match `/\{[\s\S]*\}/`, which extracts the JSON object from
    the reply text;
  - the `analyzedAt`/`model` stamps written onto an analysis;
  - the fixed prefixes put on every error.
- **The review screen's helpers** (`screens/DocumentPreviewScreen.js`):
  - the field-edit merge;
  - how the document to save is assembled and routed to create or update;
  - the camelCase-to-label formatter;
  - the list of displayed fields;
  - the edit-box fallback;
  - the icon and colour tables.

A JavaScript object is modelled as an ordered list of properties with
distinct keys (`JsValues.Object`). The order matters, because
`Object.entries` order is what the screen displays.

- Assigning an existing key keeps its position. Assigning a new key appends
  it (`JsValues.Set`).
- Spreading `{...a, ...b}` is a left-to-right fold of those assignments
  (`JsValues.Assign`).
- `undefined` is a value of its own (`Undefined`), and reading an absent
  key gives it (`JsValues.Read`). So `data: undefined` spread over a stored
  record erases its `data`, and a record without an id matches the id
  `undefined`.
- Truthiness and `===` are written out. `===` holds only between equal
  primitives: two objects or arrays parsed from storage are never identical.

The clock, `JSON.stringify`, `JSON.parse` and the engine call are parameters:

- `SaveClock` carries the `Date.now()` reading and the two ISO strings that
  `saveDocument` reads.
- An `Object -> string` serialiser stands for `JSON.stringify`.
- A `string -> Result<Object>` parser stands for `JSON.parse`.
- A `Result<string>` stands for what the engine call produced: the reply
  text, or the message of the error it threw.

`Date.now().toString()` is modelled exactly, as the decimal numeral of the
reading (`Text.DecimalString`, with a round-trip lemma).

Facts about the code that a reader might not expect, each stated by a
member of the model:

- There is no result normaliser, schema registry, filter by document type
  or lock around the store. None is modelled.
- `updateDocument` spreads every key of `updates` over the record,
  `id` and `createdAt` included (`StorageService.UpdatedRecord`), so an
  update can change a record's id (`StorageService.UpdateCanRewriteId`).
- `deleteDocument` always returns `true`, whether or not a record was
  removed (`StorageService.DocumentStore.DeleteDocument`).
- The generated id is the clock reading, and an id present in the input
  wins over it. Nothing makes ids unique; `StorageService.SaveThenFind`
  states what a lookup then finds.
- `saveDocument` reads the clock three times: `Date.now()` for the id and
  once per timestamp, so `createdAt` and `updatedAt` are separate values in
  `SaveClock`.
- Re-saving a document that has no `data` and no edits stores
  `data: undefined` over the record, erasing its old `data`
  (`DocumentPreview.ResaveKeepsRecord`).

## Model

| member | source | states |
|---|---|---|
| StorageService.DocumentStore.GetAllDocuments | services/StorageService.js:35-43 | the stored list, or the empty list when the `'@documents'` key is absent |
| StorageService.DocumentStore.SaveDocument | services/StorageService.js:12-30 | returns the new record; the stored list becomes the old list with exactly that record appended |
| StorageService.NewDocument | services/StorageService.js:15-20 | the id is the first key; an input id wins over the generated `Date.now()` numeral; createdAt/updatedAt always come from the clock; every other key is the input's |
| StorageService.SaveThenFind | services/StorageService.js:16-22 | after saving a record with a generated id, a lookup of that id finds the new record at the end, unless an earlier record already has that id (ids are not unique) |
| StorageService.FindAppended | services/StorageService.js:22 | looking an id up after a matching record is pushed: an earlier match is still found first, otherwise the pushed record is found |
| StorageService.HasId | services/StorageService.js:64 | `doc.id === id`: a record without an id matches only undefined, an object or array id matches nothing, otherwise the stored id equals the argument |
| StorageService.FindById | services/StorageService.js:64 | the index of the first record whose id is `===` the argument; none exactly when no record matches |
| StorageService.DocumentStore.GetDocumentById | services/StorageService.js:48-56 | the first record in stored order with that id, and nothing iff no record has it |
| StorageService.UpdatedRecord | services/StorageService.js:67-71 | every key of `updates` (id and createdAt included) overrides the stored value; other keys are kept; updatedAt is the update's clock reading; stored keys keep their positions |
| StorageService.DocumentStore.UpdateDocument | services/StorageService.js:61-82 | with a match, the first matching record is replaced by the merge, the list is written back and the merged record returned; without one, null is returned and nothing is written |
| StorageService.UpdateAt | services/StorageService.js:64-71 | the list after `documents[index] = …`: same length, the first match replaced by the merge, every other record identical |
| StorageService.UpdateThenFind | services/StorageService.js:64-74 | after an update that does not change the id, the record is still found first at the same index; it reads updatedAt as now, each updated field as given and every other field as before |
| StorageService.UpdateCanRewriteId | services/StorageService.js:67-71 | an `updates` carrying a different id makes the record no longer match the id it was looked up by |
| StorageService.WithoutId | services/StorageService.js:90 | the records kept are exactly those whose id is not `===` the argument, each with all its copies, in their original order |
| StorageService.DocumentStore.DeleteDocument | services/StorageService.js:87-97 | writes back the list without the records of that id and returns true, whether or not anything was removed |
| StorageService.DeleteThenFind | services/StorageService.js:90 | after a delete, no record has the id |
| StorageService.DeleteIdempotent | services/StorageService.js:90 | deleting the same id twice has the effect of deleting it once |
| StorageService.DeleteKeepsUnmatched | services/StorageService.js:90 | deleting an id that no record has leaves the list unchanged |
| StorageService.DeleteSingle | services/StorageService.js:90 | with exactly one matching record, delete removes that record and keeps the others in order |
| StorageService.MatchesQuery | services/StorageService.js:108-109 | the empty query matches every record; a match is never longer than the serialised record |
| StorageService.Matching | services/StorageService.js:105-110 | a record is returned iff its serialised form, lower-cased, contains the lower-cased query, with all its copies; the result is an order-preserving subsequence |
| StorageService.DocumentStore.SearchDocuments | services/StorageService.js:102-115 | the stored records matching the query, each with all its copies, as an order-preserving subsequence of the stored list |
| StorageService.EmptyQueryMatchesAll | services/StorageService.js:105-109 | the empty query returns every record |
| StorageService.SearchIgnoresCase | services/StorageService.js:105-108 | queries that differ only in letter case return the same records |
| StorageService.DocumentStore.ClearAll | services/StorageService.js:120-128 | removes the key and returns true; afterwards the store reads as the empty list |
| StorageService.DocumentStore.constructor | services/StorageService.js:131 | the singleton starts over whatever storage already holds |
| Text.DecimalString | services/StorageService.js:16 | `toString()` of the millisecond reading: non-empty, digits only, no leading zero |
| Text.DecimalRoundTrip | services/StorageService.js:16 | reading the generated id back as a number gives the clock reading |
| Text.DecimalStringInjective | services/StorageService.js:16 | different clock readings give different generated ids |
| Text.ContainsEmpty | services/StorageService.js:109 | every text contains the empty text |
| OpenAIService.CheckApiKey | services/OpenAIService.js:6-8 | succeeds iff the key is set and non-empty, otherwise fails with the fixed missing-key message |
| OpenAIService.NewAnalysisClient | services/OpenAIService.js:5-13 | construction fails with the missing-key message iff the key is unset or empty; otherwise the client holds the key |
| OpenAIService.AnalysisClient.constructor | services/OpenAIService.js:10-12 | the client is configured with the checked key |
| OpenAIService.ExtractJsonSpan | services/OpenAIService.js:287-290 | no span iff no `{` has a `}` after it; otherwise the leftmost, longest match of `\{[\s\S]*\}` |
| OpenAIService.SpanShape | services/OpenAIService.js:287 | the extracted span is a contiguous piece of the reply of length at least 2 that starts with `{` and ends with `}` |
| OpenAIService.WholeReplyKept | services/OpenAIService.js:329 | a reply that starts with `{` and ends with `}` is extracted whole |
| OpenAIService.SurroundingTextDropped | services/OpenAIService.js:287 | text without `{` before the object and text without `}` after it are cut off |
| OpenAIService.ParseReply | services/OpenAIService.js:284-292 | a failed call passes its message on; a reply without a span fails with "No valid JSON found in response"; otherwise the result is the parse of the span |
| OpenAIService.AnalysisClient.AnalyzeDocument | services/OpenAIService.js:284-302 | on success, analyzedAt and `model = "gpt-4o"` are set on the parsed object, overriding same-named fields and keeping all others and their order; every failure becomes "Failed to analyze document: " + message |
| OpenAIService.AnalysisClient.EnhanceData | services/OpenAIService.js:328-339 | on success, the parsed object is returned unstamped; every failure becomes "Failed to enhance data: " + message |
| JsValues.Set | services/OpenAIService.js:295-296 | property assignment: the key reads the new value, every other key is unchanged, an existing key keeps its position and a new key is appended |
| JsValues.Read | screens/DocumentPreviewScreen.js:69 | `o[k]`: undefined when the key is absent, the stored value otherwise |
| JsValues.Assign | services/StorageService.js:68-69 | a spread keeps the target's keys in place (untouched ones with their values) and appends the source's new keys after them, in the source's order |
| JsValues.GetAssign | services/StorageService.js:68-69 | after a spread, a key reads the source's value when the source has it, the target's otherwise |
| JsValues.CopyIsIdentity | services/StorageService.js:68 | spreading an object into an empty literal copies it exactly |
| JsValues.AssignAppends | services/StorageService.js:68-69 | spreading keys that are all new appends them in order |
| JsValues.SetOverwrite | screens/DocumentPreviewScreen.js:100 | of two assignments to the same key the second wins |
| Seqs.Filter | services/StorageService.js:90 | `Array.prototype.filter`: an element is kept iff it passes, in order, and the result is no longer than the input |
| Seqs.FilterCounts | services/StorageService.js:90 | a filter keeps every copy of a passing element and no copy of a failing one |
| Seqs.FindFirst | services/StorageService.js:51 | `find`/`findIndex`: the first passing index, or none iff no element passes |
| Seqs.FilterIdempotent | services/StorageService.js:90 | filtering twice by the same test is filtering once |
| Seqs.FilterKeepsAll | services/StorageService.js:90 | a filter everything passes returns its input |
| Seqs.FilterAppend | services/StorageService.js:90 | filtering a concatenation filters each part |
| Seqs.FilterCongruent | services/StorageService.js:107-110 | filters whose tests agree on every element return the same list |
| DocumentPreview.HandleEdit | screens/DocumentPreviewScreen.js:97-102 | the edited key reads the new text (added if absent); every other key is as before, in the same position; null edited data counts as empty |
| DocumentPreview.EditIdempotent | screens/DocumentPreviewScreen.js:98-101 | making the same edit twice is making it once |
| DocumentPreview.EditLastWins | screens/DocumentPreviewScreen.js:98-101 | of two edits to the same key the later wins |
| DocumentPreview.EditBoxValue | screens/DocumentPreviewScreen.js:143 | the edit box shows the edited value when it is truthy and the original value otherwise |
| DocumentPreview.EditShownInBox | screens/DocumentPreviewScreen.js:143-144 | after an edit the box shows the new text, except that a field edited to "" shows the original again |
| DocumentPreview.DocumentToSave | screens/DocumentPreviewScreen.js:66-70 | imageUri first, overridden by a documentData imageUri; every documentData field kept; data is the edited data when present, otherwise documentData.data, which may be undefined |
| DocumentPreview.RouteSave | screens/DocumentPreviewScreen.js:72 | an update of `existingData.id` exactly when existing data is present and its id is truthy, a new save otherwise |
| DocumentPreview.HandleSave | screens/DocumentPreviewScreen.js:62-95 | the store after save: the record of that id updated with the assembled document (nothing written if none), or the document appended as a new record |
| DocumentPreview.ResaveKeepsRecord | screens/DocumentPreviewScreen.js:66-74 | re-saving a stored document keeps it under its id at the same index; its data becomes the edited data, else the existing data's own data, else undefined |
| DocumentPreview.SpaceBeforeCapitals | screens/DocumentPreviewScreen.js:305 | `replace(/([A-Z])/g, ' $1')`: the length grows by one per capital and the result never starts with a capital |
| DocumentPreview.CapitalsFollowSpaces | screens/DocumentPreviewScreen.js:305 | every capital in the spaced key has a space right before it |
| DocumentPreview.SpacingIsReversible | screens/DocumentPreviewScreen.js:305 | removing each space that precedes a capital gives back the key |
| DocumentPreview.SpacedAppend | screens/DocumentPreviewScreen.js:305 | spacing a concatenation spaces each part |
| DocumentPreview.SpacedWithoutCapitals | screens/DocumentPreviewScreen.js:305 | a key without capitals is not changed by the spacing |
| DocumentPreview.FieldLabel | screens/DocumentPreviewScreen.js:305 | the length is the key's plus its capital count; the empty key gives the empty label; the first character is upper-cased (a leading capital gives a leading space); the rest is the spaced key |
| DocumentPreview.DateOfBirthLabel | screens/DocumentPreviewScreen.js:305 | "dateOfBirth" is shown as "Date Of Birth" |
| DocumentPreview.DateOfBirthSpaced | screens/DocumentPreviewScreen.js:305 | "dateOfBirth" is spaced as "date Of Birth" |
| DocumentPreview.DisplayedFields | screens/DocumentPreviewScreen.js:300-301 | exactly the entries of the data except `type`, in their original order |
| DocumentPreview.DocumentIcon | screens/DocumentPreviewScreen.js:153-166 | each of the nine known tags gets its table icon; any other tag gets the `generic` icon |
| DocumentPreview.DocumentColor | screens/DocumentPreviewScreen.js:168-181 | each of the nine known tags gets its table colour; any other tag gets the `generic` colour |
| DocumentPreview.UnknownTagLooksGeneric | screens/DocumentPreviewScreen.js:165 | an unknown tag gets 'file-document-outline' and '#6B7280', the same as `generic` |

## Left out

- AsyncStorage I/O is not modelled (services/StorageService.js:23, 37, 73, 91, 122). The store is an in-memory field, and a write is taken to always succeed.
- Storage failures are not modelled. A failed read or a corrupt stored value is swallowed inside `getAllDocuments` (services/StorageService.js:39-41), so save, update and delete carry on with `[]`: a save then overwrites the store with a one-record list and a delete writes `[]`. Only failed writes and removals are rethrown.
- The JSON round trip through storage is taken as the identity. A key whose value is `undefined` stays in the stored record as `Undefined`, where JSON serialisation would drop it; both read as undefined, but the key still occupies its position. Nor does the model capture that each read yields fresh objects.
- Concurrency is not modelled. Overlapping asynchronous calls can lose each other's writes, because every operation rewrites the whole list; the model makes each operation atomic.
- StorageService.SaveThenFind: assumes the input has no `id`. With an input id, `NewDocument` states which id is kept.
- Wall-clock time is not modelled. `Date.now()` and `new Date().toISOString()` are injected values, and their ordering (createdAt before updatedAt) is not modelled.
- The chat-completion call is not modelled: the request, the prompt text, the image payload, `max_tokens` and `temperature` (services/OpenAIService.js:20-282, 312-326). Its outcome is a parameter. `translateText` is not part of this model.
- OpenAIService.ParseReply: a null or non-string reply content would throw a TypeError in `content.match`. The model takes the content to be a string, and a failed call is carried as its message.
- JSON.parse is a parameter. The model does not say which spans parse.
- Case mapping is ASCII-only: `toLowerCase`/`toUpperCase` on non-ASCII letters are not modelled. (The label's `[A-Z]` is ASCII-only in the source too, and `Text.IsCapital` models it exactly.)
- Integer-like keys are not modelled: JavaScript lists them first in `Object.entries`, and the model keeps plain insertion order.
- DocumentPreview.DocumentIcon: does not model lookups of inherited `Object.prototype` keys such as "constructor" (the source would return a function there).
- DocumentPreview.DocumentColor: the same inherited-key lookup is not modelled.
- DocumentPreview.DocumentToSave: edited data is taken to be an object or null. The screen starts it as `existingData?.data || null` (screens/DocumentPreviewScreen.js:30), so a truthy non-object `data` is not modelled as edited data.
- DocumentPreview.RouteSave: the id of an existing document is taken from the data the screen was opened with. Navigation params are not modelled.
- The confidence percentage, `Math.round(confidence * 100)`, is floating-point display and is not modelled.
- `renderFieldValue`'s nested-object and array rendering is not modelled. Nor are React state, Alerts, navigation, styles, the loading and error toggles, and the `analyzeDocument` screen flow.
- services/SharingService.js, screens/HistoryScreen.js, screens/DashboardScreen.js and App.js are not part of this model. They hold sharing plumbing, mock lists and layout.
