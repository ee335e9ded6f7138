# Campaign worker model

A Dafny model of the campaign dispatch worker `examples/rest/workers/campaignWorker.js`.
The worker drains a table of queued WhatsApp messages. One run of `processNext` does four things:

- It picks the first ready pending row, ordered by campaign, contact, message order and creation time.
- It loads that contact's batch of ready pending rows for the same campaign and session, in message order.
- It stops when the campaign is missing or paused.
- Otherwise it sends every batch row in turn to the transport and marks each one `sent` or `failed`. It waits the campaign's item delay after every item, and then the contact delay.

The model has five modules:

- `Js` (`js.dfy`): the JavaScript values the worker handles. It covers truthiness, `a || b`, property access and `String(v)`, including the TypeError a parsed object with its own `toString` key raises when it is converted to a string.
- `Text` (`text.dfy`): the pure string helpers.
  - The phone-number digit filter (`DigitsOnly`).
  - `filenameFromUrl` (`FilenameFromUrl`).
  - `renderTemplate` (`RenderTemplate`). The regular expression `{{\s*(\w+)\s*}}` is modelled by `TokenAt`, and the single left-to-right pass of `String.prototype.replace` by `Render`.
- `Payloads` (`payloads.dfy`):
  - `parsePayload` (`ParsePayload`), with `JSON.parse` given as a function that yields `None` when it throws.
  - The `switch (payload.type)` that builds each transport request (`Route`).
- `Selection` (`selection.dfy`): the dispatch row and the two queries that open a run.
  - `FirstReady` is `findFirst` with its four-key `orderBy`.
  - `Batch` is `findMany` ordered by `messageOrder`. It is built as a filter followed by an insertion sort.
- `Worker` (`worker.dfy`): one run of `processNext`.
  - `NextState` is the run stated as a function of the table, giving an `Outcome`: how the run ended, the table afterwards, the waits and the posted requests.
  - `ProcessNext` is the run as a method that updates an `array<Dispatch>` in place. Its loop over the batch is `SendBatch`. Its contract ties it to `NextState`.
  - The lemmas beside them state what a run does.

The transport is a function `send(k, request)` from the item's position in the batch and the posted request to a `Reply`. A reply is either a response body or a thrown error message. The clock is the parameter `now`. Timers become the list of waits that a run makes, in milliseconds.

Three behaviours of the code are easy to miss:

- There is no claim state: a selected row goes straight from `pending` to `sent` or `failed`, and nothing marks it as taken while it is being sent.
- Marking a row sent only sets `status: 'sent'` (line 166), so a sent row keeps its old error.
- The item delay follows every item, the last one included (line 184), and only then comes the contact delay.

## Model

| member | source | states |
|---|---|---|
| Js.Or | examples/rest/workers/campaignWorker.js:111 | the result is truthy exactly when one of the operands is: a truthy first operand is kept, otherwise the second is taken |
| Js.NatToString | examples/rest/workers/campaignWorker.js:168-175 | the decimal notation of a natural number: digits only, denoting exactly that number, with a leading `0` only for zero |
| Js.ToString | examples/rest/workers/campaignWorker.js:168-175 | `String(v)` is the string itself for a string; an object throws exactly when it has its own `toString` key; any failure is the TypeError `Cannot convert object to primitive value`; a number, object, boolean, null or undefined that converts gives a non-empty text |
| Js.JoinFrom | examples/rest/workers/campaignWorker.js:168-175 | the join of an array's elements fails only with the TypeError message |
| Js.JoinFromThrows | examples/rest/workers/campaignWorker.js:168-175 | one element that cannot be converted, wherever it stands, makes the whole join throw |
| Js.JoinFromPrints | examples/rest/workers/campaignWorker.js:168-175 | a join that throws has an element, neither null nor undefined, that cannot be converted |
| Js.ArrayPrints | examples/rest/workers/campaignWorker.js:168-175 | an array converts exactly when each of its elements other than null and undefined converts |
| Js.Prints | examples/rest/workers/campaignWorker.js:168 | no contract: it names the condition under which a value converts; Js.ArrayPrints and Worker.DeliverOutcome state what depends on it |
| Text.DigitsOnly | examples/rest/workers/campaignWorker.js:99 | the normalised number holds only digits and is no longer than the contact |
| Text.DigitsOnlyAppend | examples/rest/workers/campaignWorker.js:99 | the digit filter works character by character: the filter of `a + b` is the filter of `a` followed by the filter of `b` |
| Text.DigitsOnlyKeepsDigits | examples/rest/workers/campaignWorker.js:99 | a contact made only of digits is posted unchanged |
| Text.DigitsOnlyDropsAll | examples/rest/workers/campaignWorker.js:99 | a contact with no digit gives the empty number |
| Text.DigitsOnlyIdempotent | examples/rest/workers/campaignWorker.js:99 | normalising twice gives the same number as normalising once |
| Text.BeforeFirst | examples/rest/workers/campaignWorker.js:18 | `split('?')[0]` is a prefix of the URL without `?`, and it stops exactly at the first `?` |
| Text.AfterLast | examples/rest/workers/campaignWorker.js:18 | `split('/').pop()` is a suffix without `/`, and it starts exactly after the last `/` |
| Text.FilenameFromUrl | examples/rest/workers/campaignWorker.js:16-23 | a non-string URL (where `split` throws) gives the fallback; any other result is non-empty and holds no `/` and no `?` |
| Text.BeforeFirstSplit | examples/rest/workers/campaignWorker.js:18 | the part before the first `?` of `x + '?...'` is `x` when `x` has no `?` |
| Text.AfterLastSplit | examples/rest/workers/campaignWorker.js:18 | the last `/`-segment of `x + "/" + seg` is `seg` when `seg` has no `/` |
| Text.AfterLastAbsent | examples/rest/workers/campaignWorker.js:18 | a string without `/` is its own last segment |
| Text.FilenameIsLastSegment | examples/rest/workers/campaignWorker.js:16-23 | the name of `dir/seg?query` is `seg`, or the fallback when `seg` is empty, as for a URL ending in `/` |
| Text.FilenameOfBareName | examples/rest/workers/campaignWorker.js:16-23 | a URL with no `/` names itself, or gives the fallback when it is empty |
| Text.TokenAt | examples/rest/workers/campaignWorker.js:26 | a match of `{{\s*(\w+)\s*}}` spans at least five characters and lies within the text |
| Text.TokenAtIsPlaceholder | examples/rest/workers/campaignWorker.js:26 | every match is two opening braces, spaces, a non-empty word (the key), spaces and two closing braces |
| Text.PlaceholderMatches | examples/rest/workers/campaignWorker.js:26 | conversely, every such placeholder is matched whole, with the word between the braces as its key |
| Text.RenderTemplate | examples/rest/workers/campaignWorker.js:24-29 | falsy text gives `''`; a non-empty string is rendered; any other truthy value throws (it has no `replace`) with a non-empty message |
| Text.Render | examples/rest/workers/campaignWorker.js:26 | no contract: the single left-to-right pass of `replace`; its properties are Text.RenderWithoutTokens, Text.RenderAtFirstToken, Text.RenderPlaceholder and Text.SubstitutedValueIsNotRescanned |
| Text.Lookup | examples/rest/workers/campaignWorker.js:27 | no contract: `contactData[key] ?? ''`; Worker.TemplateVars and Text.MissingKeyExample state that an absent or null value gives `''` |
| Text.RenderWithoutTokens | examples/rest/workers/campaignWorker.js:26-28 | text in which no placeholder starts comes back unchanged |
| Text.RenderPlainPrefix | examples/rest/workers/campaignWorker.js:26-28 | text without `{` is copied as it is, whatever follows it |
| Text.NoTokenBeforeFromAll | examples/rest/workers/campaignWorker.js:26-28 | no match at any of the first p positions means `NoTokenBefore` holds for the first p characters |
| Text.RenderCopiesPrefix | examples/rest/workers/campaignWorker.js:26-28 | the characters before the first placeholder are copied verbatim |
| Text.RenderAtFirstToken | examples/rest/workers/campaignWorker.js:26-28 | before the first match the text is copied; the match becomes `contactData[key] ?? ''`; scanning resumes right after it |
| Text.RenderPlaceholder | examples/rest/workers/campaignWorker.js:26-28 | a placeholder at the head becomes its value, placed before the rendering of the rest, so the value is never rescanned |
| Text.RenderBarePlaceholder | examples/rest/workers/campaignWorker.js:26-28 | `{{key}}` without spaces is replaced by its value |
| Text.SubstitutedValueIsNotRescanned | examples/rest/workers/campaignWorker.js:26-28 | a value that itself reads `{{email}}` is inserted literally |
| Text.RenderTextThenPlaceholder | examples/rest/workers/campaignWorker.js:26-28 | plain text followed by one placeholder renders to the text followed by the value |
| Text.GreetingExample | examples/rest/workers/campaignWorker.js:26-28 | `Hello {{nome}}` with `nome = Ana` renders to `Hello Ana` |
| Text.MissingKeyExample | examples/rest/workers/campaignWorker.js:27 | a key that is absent renders as `''` |
| Payloads.ParsePayload | examples/rest/workers/campaignWorker.js:8-14 | the payload always has a truthy `type`; an object with a truthy `type` is kept as parsed; anything else, including a failed parse, becomes `{type:'text', text:String(raw ?? '')}` |
| Payloads.UnparsedMessageIsText | examples/rest/workers/campaignWorker.js:8-14 | a message that `JSON.parse` rejects is read as a text payload whose text is the raw string |
| Payloads.UnparsedMessagePosted | examples/rest/workers/campaignWorker.js:145-152 | a message that `JSON.parse` rejects is posted as a text message whose body is the raw string rendered against the contact's variables |
| Payloads.Route | examples/rest/workers/campaignWorker.js:103-160 | the case is chosen by exact comparison of `type` with `image`, `video`, `audio` and `document`, anything else being text; the request goes under the row's session and digits; an image, video or document carries its own URL field (`imageUrl`, `videoUrl`, `documentUrl`) as path and `FilenameFromUrl` of it with the default `imagem.jpg`, `video.mp4` or `documento` as a non-empty file name; its caption is `text` when truthy and `''` otherwise; audio carries `audioUrl`; text is the rendered template, `''` for falsy text; building throws exactly for truthy non-string text |
| Payloads.Caption | examples/rest/workers/campaignWorker.js:111 | `payload.text || ''` is the text or the empty string, never another falsy value, and it is truthy exactly when the text is |
| Payloads.EndpointsDiffer | examples/rest/workers/campaignWorker.js:104-158 | requests of different kinds under one session go to different URLs |
| Payloads.Endpoint | examples/rest/workers/campaignWorker.js:106-156 | no contract: the URL of each request; Payloads.EndpointsDiffer states that kinds never share one |
| Selection.StringLtIrreflexive | examples/rest/workers/campaignWorker.js:38-43 | the contact order is irreflexive |
| Selection.StringLtTransitive | examples/rest/workers/campaignWorker.js:38-43 | the contact order is transitive |
| Selection.StringLtTotal | examples/rest/workers/campaignWorker.js:38-43 | any two different contacts are ordered one way or the other |
| Selection.KeyLtIrreflexive | examples/rest/workers/campaignWorker.js:38-43 | the four-key `orderBy` is irreflexive |
| Selection.KeyLtTransitive | examples/rest/workers/campaignWorker.js:38-43 | the four-key `orderBy` is transitive |
| Selection.KeyLtTotal | examples/rest/workers/campaignWorker.js:38-43 | the four-key `orderBy` is total |
| Selection.KeyLtBeforeLe | examples/rest/workers/campaignWorker.js:38-43 | a key strictly below b is strictly below every key that is not below b |
| Selection.Ready | examples/rest/workers/campaignWorker.js:34-36 | no contract: pending with `scheduledAt` null or at most now; Selection.FirstReadyCharacterized and Selection.Batch are stated through it |
| Selection.FirstReadyIn | examples/rest/workers/campaignWorker.js:33-44 | among the first n rows, the query finds none exactly when no row is ready, and otherwise a ready row among them |
| Selection.FirstReadyInIsLeast | examples/rest/workers/campaignWorker.js:33-44 | no ready row among the first n sorts before the chosen row, and every ready row before it in the table sorts strictly after it |
| Selection.FirstReady | examples/rest/workers/campaignWorker.js:33-44 | no contract: `findFirst` over the whole table; Selection.FirstReadyCharacterized states exactly which row it returns |
| Selection.FirstReadyCharacterized | examples/rest/workers/campaignWorker.js:33-44 | `findFirst` gives null exactly when no row is pending with `scheduledAt` null or at most now; it gives row i exactly when row i is the least ready row in the four-key order (the earliest in the table among equal keys) |
| Selection.MembersAreTheBatch | examples/rest/workers/campaignWorker.js:58-65 | the filter keeps exactly the ready rows of the head's campaign, contact and session, in increasing id order |
| Selection.InsertSorted | examples/rest/workers/campaignWorker.js:66 | inserting an id into a list sorted by `messageOrder` keeps it sorted and adds exactly that id |
| Selection.SortByOrderSorts | examples/rest/workers/campaignWorker.js:66 | sorting a list of distinct ids gives a list sorted by `messageOrder` with the same ids |
| Selection.Batch | examples/rest/workers/campaignWorker.js:58-67 | the batch holds exactly the ready pending rows of the head's campaign, contact and session, each once, in non-decreasing `messageOrder` |
| Worker.ProfileOf | examples/rest/workers/campaignWorker.js:53-56 | no contract: the contact's profile or null; Worker.TemplateVars states what the template sees in each case |
| Worker.TemplateVars | examples/rest/workers/campaignWorker.js:149-153 | the template sees `nome`, `email` and `empresa` from the profile; with no profile every key renders as `''` |
| Worker.ItemDelay | examples/rest/workers/campaignWorker.js:92 | the campaign's delay when it is non-zero, otherwise 30000, and never 0 |
| Worker.ContactDelay | examples/rest/workers/campaignWorker.js:93 | `contactDelay || 0` is positive exactly when the campaign's contact delay is set and positive, and then it is that delay |
| Worker.Repeat | examples/rest/workers/campaignWorker.js:184 | n item waits, each of the same length |
| Worker.Pacing | examples/rest/workers/campaignWorker.js:180-192 | n item waits of the item delay, then one contact wait exactly when the contact delay is positive; no wait is 0 |
| Worker.Delivered | examples/rest/workers/campaignWorker.js:163 | no contract: `res?.data?.status` is truthy; Worker.DeliverOutcome and Worker.NextStateItems state the outcome through it |
| Worker.ErrorText | examples/rest/workers/campaignWorker.js:175 | the stored error text is the error's message when that is non-empty and exactly its name when the message is empty, so it is never empty |
| Worker.FailureText | examples/rest/workers/campaignWorker.js:163-176 | the error stored for an undelivered reply is never empty; it is `Falha no envio` when the body's message is falsy, the body's message when that is a non-empty string, `[object Object]` when it is an object without its own `toString` key, the decimal notation of a non-zero number, `true` for `true`, the thrown error's message when non-empty and `AxiosError` when it is empty, and the TypeError's message when `new Error` cannot convert the body's message |
| Worker.Deliver | examples/rest/workers/campaignWorker.js:98-178 | no contract: one item as a function, used by Worker.NextState; Worker.DeliverOutcome states its outcome |
| Worker.SendItem | examples/rest/workers/campaignWorker.js:98-178 | the loop body posts a request exactly when one could be built, and it is the built one; the item ends without error exactly when the build succeeded, the reply to it delivered and the success log could print the payload's type; an error is never empty; and this is what Worker.Deliver describes |
| Worker.DeliverOutcome | examples/rest/workers/campaignWorker.js:98-178 | a request is posted exactly when it could be built, to the row's session and digits; the item succeeds exactly when the reply to that request has a truthy status and the payload's type converts to a string for the success log; a failure always carries a non-empty error |
| Worker.UnprintableTypeFailsAfterDelivery | examples/rest/workers/campaignWorker.js:164-176 | a message `{"type":{"toString":0,"valueOf":0},"text":"hi"}` is posted as text, and even when the transport delivers it the row ends failed with `Cannot convert object to primitive value` |
| Worker.Settle | examples/rest/workers/campaignWorker.js:163-176 | only `status` and `error` may change; the row is sent exactly when there is no error and failed exactly when there is one; a failure records its error and a success keeps the old one |
| Worker.DeliveriesAt | examples/rest/workers/campaignWorker.js:97-178 | item k's delivery depends only on its own row and on `send(k, ·)`, whatever the other items gave |
| Worker.SettledFrame | examples/rest/workers/campaignWorker.js:164-176 | the store updates touch no row outside the batch |
| Worker.SettledAt | examples/rest/workers/campaignWorker.js:164-176 | each batch row ends as its own delivery says, not overwritten by later items |
| Worker.RequestsAddress | examples/rest/workers/campaignWorker.js:104-158 | when every item's request addresses one session and number, every posted request does |
| Worker.StoreUpdate | examples/rest/workers/campaignWorker.js:164-176 | `campaignDispatch.update` replaces one row and no other |
| Worker.SendBatch | examples/rest/workers/campaignWorker.js:97-185 | after the loop, the table is the old one with every batch row settled by its delivery; the requests are those of the items in order; the waits are one item wait per item, the last included |
| Worker.Stopped | examples/rest/workers/campaignWorker.js:84 | no contract: the row's campaign is missing or its status is `paused`; Worker.NextStatePaused states what a run does then |
| Worker.NextState | examples/rest/workers/campaignWorker.js:30-194 | no contract: one run as a function of the table; Worker.ProcessNext is proved equal to it, and the Worker.NextState lemmas below state what it does |
| Worker.ProcessNext | examples/rest/workers/campaignWorker.js:30-194 | the method's step, final table, waits and posted requests are exactly those of `NextState` on the old table |
| Worker.NextStateSelection | examples/rest/workers/campaignWorker.js:46-72 | a run is idle exactly when no row is ready, and then it changes nothing, posts nothing and waits 5000 ms; the empty-batch branch is never taken; otherwise the run starts from the row `findFirst` picks |
| Worker.NextStatePaused | examples/rest/workers/campaignWorker.js:79-90 | a run that found a ready row stops exactly when its campaign is missing or paused, and then changes no row, posts nothing and waits 10000 ms |
| Worker.NextStateBatch | examples/rest/workers/campaignWorker.js:58-67 | a dispatching run's batch contains its head row and exactly the ready rows of the head's group, each once, in non-decreasing `messageOrder` |
| Worker.SettledRows | examples/rest/workers/campaignWorker.js:97-178 | settling a batch of distinct rows leaves each batch row sent, or failed with a non-empty error, with its other columns unchanged, and leaves every other row as it was |
| Worker.NextStateSettles | examples/rest/workers/campaignWorker.js:97-178 | after a dispatching run every batch row is sent, or failed with a non-empty error, with no other column changed; every other row is unchanged |
| Worker.BatchItems | examples/rest/workers/campaignWorker.js:97-178 | in a batch of one session and contact, item k ends sent exactly when its request was built, the reply to it delivered and its type printed; every request addresses that session and contact |
| Worker.NextStateItems | examples/rest/workers/campaignWorker.js:97-178 | a failure does not stop later items: each batch row is sent exactly when its own request was built, its own reply delivered and its type printed; all requests go to the head's session and digits |
| Worker.NextStatePacing | examples/rest/workers/campaignWorker.js:180-192 | a dispatching run makes one item wait per item, the last included, where a null or 0 delay means 30000 ms, and then the contact delay only when it is positive: n or n + 1 waits |

## Left out

- The self-rescheduling loop is not modelled. It is the `setTimeout(processNext, …)` and `processNext()` calls at lines 50, 70, 88, 193 and 197. Each run is one `NextState`, and a retry delay is recorded as a wait.
- Timers are not modelled. Each `setTimeout` sleep becomes a wait in the run's `waits` list.
- Worker.ItemDelay: a campaign `delay` below 1 ms or above 2147483647 ms is recorded as it is. Node's `setTimeout` sets such a delay to 1 ms, so the worker waits about 1 ms instead.
- Worker.ContactDelay: a `contactDelay` above 2147483647 ms is recorded as it is. Node's `setTimeout` sets it to 1 ms, so the worker waits about 1 ms instead.
- Worker.SendBatch: an `Outcome` keeps the waits and the posted requests as two separate lists, so the model does not state that each item's wait comes between its post and the next item's post. That would need a single event trace.
- Concurrent workers are not modelled. The code takes no claim, so two processes can send the same row; nothing is stated about that.
- Prisma is replaced by an in-memory table:
  - The dispatch table is an `array<Dispatch>`; a row's index is its id.
  - Campaigns and contact profiles are maps.
  - Store failures and thrown queries are not modelled. A failed `update` inside the `catch` would abort the run.
- Ties in the `orderBy` clauses are not modelled as the database resolves them. The model takes rows with equal keys in table order.
- Selection.StringLt: contacts compare by character code. The database collation, which may order strings differently, is not modelled.
- `examples/rest/index.js` is not part of this model: its routes, sessions, media conversion and webhooks talk only to external services.
- Console logging is left out, except for the conversion of `payload.type` in the success log at line 168, which can throw; that is modelled in Worker.Deliver.
- `JSON.parse` is a parameter that yields `None` when it throws. JSON syntax is not modelled.
- Numbers are integers. JSON fractions, NaN and `String` of a fraction are not modelled.
- Text.IsSpace: `\s` is the ASCII space, tab, line feed, vertical tab, form feed and carriage return. JavaScript's `\s` also matches Unicode spaces such as U+00A0 and U+FEFF, so a placeholder padded with those is not matched by the model.
- Worker.TemplateVars: `contactData[key]` for a key inherited from `Object.prototype` is not modelled. For example, `{{constructor}}` renders a function's source text in JavaScript and `''` in the model.
- Selection.Dispatch: campaign ids are taken to be integers and ordered numerically (line 39). The database schema is not part of this model; a string id would sort by character code instead.
- Worker.FailureText: for a body message that is an array, the contract states only that the stored text is not empty (the elements joined with commas, or `Error` when that is empty). Every other kind of body message has its stored text stated, including the error object that some transport handlers reply with as `message`. A thrown transport error is given as its message. An error without a message prints as `AxiosError`; the exact `String(err)` of other error objects is not modelled.
- Js.ToString: numbers are printed as decimal integers. Values that JSON cannot produce, such as functions and objects with a callable `toString`, are not modelled.
- The transport's HTTP body is modelled as the `Request` datatype: its fields, its kind and its session (`Endpoint` gives the URL). Serialisation and HTTP status codes are not modelled; a thrown call is a `Thrown` reply.
