# AIPowerGrid grid-frontend — a Dafny model of its server core

The grid-frontend is a Next.js dashboard and API layer in front of the
AIPowerGrid distributed inference grid. This project models the parts of it
that carry logic rather than presentation:

- **The four text-generation adapters.** These are the OpenAI-compatible
  `chat/completions` and `v1/completions` routes, the older
  `openai/completions` route, and the site's own `generate-text` route.
  Each one:
  - resolves or forwards an API key;
  - validates the body;
  - builds the grid's text-job payload;
  - polls the grid's status endpoint until the job is done;
  - renders an OpenAI-style envelope. The chat route can instead emit a
    stream of server-sent events.
- **The image adapter `generate-image`.** It polls a `check` endpoint, then
  reads `status` once and answers with the public image URL.
- **The data routes:**
  - `workers-count` sums worker counts by model name;
  - `models-count` counts the distinct model names;
  - `openai/v1/models` rewrites the grid's models into OpenAI's model list;
  - `workers-rewards` keeps the workers whose name is an AIPG address;
  - `text-gen-stats` and `image-gen-stats` union three per-timeframe tables,
    fill in zeros and sort by total;
  - `historical-stats` whitelists a timeframe and reads two counters.
- **The account routes.** `update-username` is a chain of guards ending in
  the storage of a trimmed, validated name. `generate-api-key` registers a
  random 14-letter user and scrapes the key from the returned HTML with a
  regular expression.
- **Two dashboard components.** The workers table has a search filter and
  cell formatters. The API key page renders 16 random bytes as 32 hex
  digits and keeps them in its state.
- **The database helpers of `src/lib/db.ts`.** The `users` and `user_roles`
  tables are the fields of a `Database` object.

How the model stands in for the outside world:

- **Inputs.** Every exchange with the outside world is an input:
  - the grid's replies are values, and a poll loop consumes a finite
    sequence of status replies;
  - `uuidv4()`, `Date.now()`, `Math.random()`, `getRandomValues`, the md5
    digest, `JSON.stringify`, and the two database helpers the rename route
    calls are parameters.
- **Polls that never finish.** When the replies run out before the job is
  done, the route reports that no response has been produced yet. The
  source polls forever.
- **Failures.** A thrown exception in a route becomes its 500 (or
  `NextResponse.error()`) response.

Modules:

- `JsText` holds the JavaScript string built-ins the routes rely on: `split`
  on one character, `join`, `trim` with ECMAScript white space, ASCII
  `toLowerCase`/`toUpperCase`, `includes`, and decimal rendering.
- `GridJob` holds what the text adapters share.
- `GridModels` holds the `type` selection shared by three routes.
- `GenerationStats` models both stats routes, which are identical apart
  from their URL.
- Every other module corresponds to one source file.

Behaviour of the code worth noting:

- The chat stream sends no role-establishing chunk and no finish chunk,
  only token frames and then `[DONE]`.
- A submit reply without an `id` still polls `status/undefined`.
- The generated text is returned trimmed and otherwise as the grid sends it; no part of it is singled out as the answer.
- The 500 `Internal server error` catch of the `generate-api-key` `POST` is
  unreachable, because `fetchApiKey` catches everything itself.

## Model

| member | source | states |
|---|---|---|
| JsText.Split | src/features/workers/components/workers-list-view.tsx:148 | `split` on one character yields at least one piece and no piece contains the separator |
| JsText.SplitLength | src/app/api/openai/v1/chat/completions/route.ts:120-121 | the number of pieces is the number of separators plus one |
| JsText.JoinSplit | src/app/api/openai/v1/chat/completions/route.ts:137 | joining the pieces with the separator gives the original string back |
| JsText.SplitFirstPiece | src/features/workers/components/workers-list-view.tsx:148 | the first piece is a prefix that ends at the first separator or at the end |
| JsText.JoinLength | src/app/api/openai/v1/chat/completions/route.ts:55-60 | a join of n pieces has their total length plus n - 1 separators |
| JsText.JoinAppend | src/app/api/openai/v1/chat/completions/route.ts:55-60 | joining one more piece adds one separator and the piece at the end |
| JsText.Count | src/app/api/openai/v1/chat/completions/route.ts:120 | a character count is at most the length and is zero exactly when the character is absent |
| JsText.IncludesAt | src/features/workers/components/workers-list-view.tsx:44 | `includes` holds exactly when the needle occurs at some index |
| JsText.IncludesEmpty | src/features/workers/components/workers-list-view.tsx:44 | every string includes the empty string |
| JsText.TrimIsSlice | src/app/api/openai/v1/chat/completions/route.ts:97 | `trim` removes only white space and only from the two ends, and leaves no white space at either end |
| JsText.TrimPadded | src/app/api/update-username/route.ts:94 | white space around a solid string is all that `trim` removes |
| JsText.TrimSolid | src/app/api/update-username/route.ts:94 | a string with no white space at either end is its own trim |
| JsText.TrimIdempotent | src/app/api/update-username/route.ts:94 | trimming twice is trimming once |
| JsText.ToLower | src/features/workers/components/workers-list-view.tsx:44 | the length is kept and every character is mapped to its ASCII lower case |
| JsText.ToUpper | src/lib/db.ts:93 | the length is kept and every character is mapped to its ASCII upper case |
| JsText.NatToString | src/features/workers/components/workers-list-view.tsx:143 | a number renders as decimal digits with no leading zero |
| JsText.ParseNatToString | src/features/workers/components/workers-list-view.tsx:143 | the decimal rendering reads back as the number |
| JsText.InsertIndexKey | src/app/api/workers-count/route.ts:51 | inserting an array-index key adds exactly that key to the index keys |
| JsText.SortIndexKeys | src/app/api/workers-count/route.ts:51 | sorting the array-index keys keeps exactly the same keys |
| JsText.IndexKeys | src/app/api/workers-count/route.ts:51 | the array-index keys are exactly the keys that are array indices |
| JsText.NamedKeys | src/app/api/workers-count/route.ts:51 | the other keys are exactly the keys that are not array indices, and the two groups together are as many as the keys |
| JsText.OwnKeys | src/app/api/workers-count/route.ts:51 | `Object.entries` lists the same keys as were created, as many of them |
| JsText.InsertAscending | src/app/api/workers-count/route.ts:51 | inserting a new array index keeps the index keys in ascending numeric order |
| JsText.SortAscending | src/app/api/workers-count/route.ts:51 | distinct array indices sort into strictly ascending numeric order |
| JsText.AscendingDistinct | src/app/api/workers-count/route.ts:51 | keys in strictly ascending numeric order are distinct |
| JsText.FiltersDistinct | src/app/api/workers-count/route.ts:51 | splitting distinct keys into array indices and other keys keeps each group distinct |
| JsText.NamedKeysAppend | src/app/api/workers-count/route.ts:51 | picking the non-index keys distributes over concatenation |
| JsText.NamedKeysOfIndexKeys | src/app/api/workers-count/route.ts:51 | a list of array indices has no other keys |
| JsText.NamedKeysIdempotent | src/app/api/workers-count/route.ts:51 | picking the non-index keys twice is picking them once |
| JsText.OwnKeysDistinct | src/app/api/workers-count/route.ts:51 | an object lists each of its keys once |
| JsText.OwnKeysIndexFirst | src/app/api/workers-count/route.ts:51 | every array index comes before every other key, and the array indices ascend |
| JsText.OwnKeysKeepNamedOrder | src/app/api/workers-count/route.ts:51 | the keys that are not array indices keep their creation order |
| JsText.OwnKeysSpec | src/app/api/workers-count/route.ts:51 | own-key order: each key once, array indices first in ascending numeric order, then the other keys in creation order |
| GridJob.StatusUrl | src/app/api/openai/v1/chat/completions/route.ts:90 | the status URL is the base URL, a slash and the job id |
| GridJob.Gets | src/app/api/openai/v1/chat/completions/route.ts:93-95 | k polls are k identical GETs of the status URL with the same key |
| GridJob.GeneratedFromSpec | src/app/api/openai/v1/chat/completions/route.ts:89-100 | the chat poll stops at the first reply that is done and has a generation, and returns its first text trimmed; every earlier reply was still generating; a failed GET aborts; one GET per reply consumed |
| GridJob.PollUntilGenerated | src/app/api/openai/v1/chat/completions/route.ts:89-100 | the imperative loop ends with the outcome and the GET count that the specification function gives |
| GridJob.DoneFromSpec | src/app/api/openai/v1/completions/route.ts:99-111 | the done-only poll stops at the first done reply; an empty generation list there is a failure, otherwise the first text trimmed is the result; every earlier reply was not done |
| GridJob.PollUntilDone | src/app/api/openai/v1/completions/route.ts:99-111 | the imperative loop ends with the outcome and the GET count that the specification function gives |
| GridJob.ThreeRepliesExample | src/app/api/openai/v1/chat/completions/route.ts:89-100 | two pending replies and then a finished one take exactly three GETs and return the text unchanged |
| GridJob.StreamController.constructor | src/app/api/openai/v1/chat/completions/route.ts:134-135 | a new stream is open and empty |
| GridJob.StreamController.Enqueue | src/app/api/openai/v1/chat/completions/route.ts:156 | a chunk is appended at the end and the stream stays open |
| GridJob.StreamController.Close | src/app/api/openai/v1/chat/completions/route.ts:162 | closing keeps every chunk enqueued so far |
| GridJob.BearerToken | src/app/api/openai/v1/chat/completions/route.ts:22-26 | a token exists exactly when the header starts with `Bearer `; it is the text after `Bearer ` up to the next space |
| GridJob.ResolveApiKey | src/app/api/openai/v1/chat/completions/route.ts:28-29 | a resolved key is never empty and is either the bearer token or the body key |
| GridJob.BearerWins | src/app/api/openai/v1/completions/route.ts:22-32 | a well-formed bearer token takes precedence over the body key |
| GridJob.BodyKeyFallback | src/app/api/openai/v1/chat/completions/route.ts:22-28 | without a non-empty bearer token the body key decides, and an empty body key means no key |
| GridJob.TokenCount | src/app/api/openai/v1/chat/completions/route.ts:120 | the space-split count is the number of spaces plus one |
| GridJob.UsageOf | src/app/api/openai/v1/chat/completions/route.ts:118-122 | prompt tokens are 0; completion and total tokens are equal, at least 1, and count the spaces plus one |
| ChatCompletions.MessageLines | src/app/api/openai/v1/chat/completions/route.ts:55-59 | one `role: content` line per message, in input order |
| ChatCompletions.InstructionSingle | src/app/api/openai/v1/chat/completions/route.ts:55-60 | one message is its own `role: content` line |
| ChatCompletions.InstructionAppend | src/app/api/openai/v1/chat/completions/route.ts:55-60 | a further message adds a blank line and its line at the end, so the input order is kept |
| ChatCompletions.InstructionLength | src/app/api/openai/v1/chat/completions/route.ts:55-60 | n messages give their lines and exactly n - 1 two-character separators |
| ChatCompletions.ChatJobFields | src/app/api/openai/v1/chat/completions/route.ts:39-78 | the payload carries the instruction, one model (the DeepSeek default unless named), n 1, untrusted workers, top_p 0.9, max_length 150 and temperature 0.7 by default, and no legacy block |
| ChatCompletions.EnvelopeShape | src/app/api/openai/v1/chat/completions/route.ts:104-123 | the completion has one choice holding the whole text, with usage counted by spaces |
| ChatCompletions.TokenChunks | src/app/api/openai/v1/chat/completions/route.ts:137-154 | one chunk per space-split token |
| ChatCompletions.StreamShape | src/app/api/openai/v1/chat/completions/route.ts:132-161 | the stream has one frame per counted token and then `[DONE]`; every token frame is a `chat.completion.chunk` with the shared id and time, one choice at index 0 and no finish reason |
| ChatCompletions.Deltas | src/app/api/openai/v1/chat/completions/route.ts:149 | one delta per chunk |
| ChatCompletions.SpacedJoin | src/app/api/openai/v1/chat/completions/route.ts:149 | tokens each followed by a space are their space-join plus one space |
| ChatCompletions.DeltasSpaced | src/app/api/openai/v1/chat/completions/route.ts:149 | the deltas concatenate to the tokens each followed by a space |
| ChatCompletions.StreamConcatenation | src/app/api/openai/v1/chat/completions/route.ts:137-159 | the deltas concatenate to the generated text plus one trailing space |
| ChatCompletions.StreamMatchesEnvelope | src/app/api/openai/v1/chat/completions/route.ts:102-161 | the trimmed concatenation of the stream's deltas is exactly the content of the non-streaming envelope |
| ChatCompletions.EmitStream | src/app/api/openai/v1/chat/completions/route.ts:134-163 | the loop enqueues exactly the specified frames, `[DONE]` last, and closes the stream |
| ChatCompletions.HandlePost | src/app/api/openai/v1/chat/completions/route.ts:19-185 | a body that is not JSON gives 500; no key gives 401 before the messages are looked at; no messages give 400; none of these calls the grid; otherwise one submit POST, one GET per reply consumed, and a completion or event stream for the trimmed generation |
| CompletionsV1.CompletionJobFields | src/app/api/openai/v1/completions/route.ts:50-88 | the prompt is forwarded unchanged with max_length 50 and temperature 0.7 by default, top_p 0.9 and the fixed legacy block (context 512, 512x512, 30 steps, DDIM) |
| GridJob.CompletionEnvelope | src/app/api/openai/v1/completions/route.ts:116-134 | the `text_completion` object (built the same way at lines 107-125 of `src/app/api/openai/completions/route.ts`) carries the given id, time and model and one choice holding the whole text at index 0, with no logprobs, reason `stop`, and usage counted by spaces |
| CompletionsV1.EmitEnvelope | src/app/api/openai/v1/completions/route.ts:138-144 | the stream body is exactly one chunk holding the serialised envelope, and then closes |
| CompletionsV1.HandlePost | src/app/api/openai/v1/completions/route.ts:19-157 | no key gives 401, then no prompt gives 400, with no grid call; an empty generation list on the done reply gives 500; success is the one-chunk stream of the envelope |
| GridCompletions.InstructionShape | src/app/api/openai/completions/route.ts:41-49 | `trim` removes only the template's own padding, so the prompt sits verbatim between the system/user header and the assistant cue |
| GridCompletions.InstructionKeepsPrompt | src/app/api/openai/completions/route.ts:41-49 | the prompt can be read back at a fixed offset of the instruction |
| GridCompletions.GridCompletionJobFields | src/app/api/openai/completions/route.ts:23-79 | the payload carries the templated prompt, `grid-model-default` unless named, max_length 50 and temperature 0.7 by default, and the legacy block |
| GridCompletions.HandlePost | src/app/api/openai/completions/route.ts:19-135 | no key check is made; the body's key, present or not, goes to the grid; no prompt gives 400 with no grid call; success is the plain JSON envelope |
| GenerateText.InstructionKeepsPrompt | src/app/api/generate-text/route.ts:33-41 | the untrimmed template keeps the prompt verbatim at a fixed offset, starts with a newline and ends in white space |
| GridJob.SessionId | src/app/api/generate-text/route.ts:30 | a non-empty session id is kept, otherwise the fresh id is used (the same expression is at line 36 of `src/app/api/generate-image/route.ts`) |
| GenerateText.GenerateTextJob | src/app/api/generate-text/route.ts:62-84 | the job's parameters are 50 tokens at temperature 0.7 whatever the request holds |
| GenerateText.HandlePost | src/app/api/generate-text/route.ts:19-106 | a missing prompt, uuid or model gives 400 with no grid call; success is exactly the trimmed generation and the session id |
| GenerateImage.CensorNsfw | src/app/api/generate-image/route.ts:66 | censoring is on unless `nsfw` is exactly true |
| GenerateImage.ImageJobOf | src/app/api/generate-image/route.ts:62-84 | the job carries the prompt, the model and the caller's `nsfw`, and `censor_nsfw` is its negation |
| GenerateImage.ImageJobFixedFields | src/app/api/generate-image/route.ts:62-84 | no downgrade, no trusted-only workers, r2 and img2img, one 512x512 image at 30 DDIM steps |
| GenerateImage.ImageUrlId | src/app/api/generate-image/route.ts:57 | the image id can be read back from the URL |
| GenerateImage.ImageUrlInjective | src/app/api/generate-image/route.ts:57 | distinct ids give distinct URLs |
| GenerateImage.CheckedFromSpec | src/app/api/generate-image/route.ts:42-51 | polling the `check` endpoint stops at the first done reply or the first failed GET; every earlier reply was not done |
| GenerateImage.ImageOf | src/app/api/generate-image/route.ts:52-57 | the single status fetch gives the URL of the first generation, and is a failure when there is none |
| GenerateImage.PollImage | src/app/api/generate-image/route.ts:42-60 | check GETs until done, then exactly one status GET, and only then |
| GenerateImage.HandlePost | src/app/api/generate-image/route.ts:24-106 | a missing field gives 400 and missing `customSettings` gives 500, both before any grid call; success is the image URL and the session id |
| Db.ParseRoleValue | src/lib/db.ts:92-99 | an upper-case `TRUE` parses to true and an upper-case `FALSE` to false |
| Db.UpperOfLowerTrue | src/lib/db.ts:93 | `true` upper-cases to `TRUE` |
| Db.LowerTrueIsCaughtFirst | src/lib/db.ts:93-98 | the `'true'` alternative of the last branch is unreachable |
| Db.ParseRoleValueSpec | src/lib/db.ts:92-99 | a value is true exactly when it spells `true` in any case, or is `t` or `1` |
| Db.DefaultRoleValueIsTrue | src/lib/db.ts:89 | the default argument stores true |
| Db.FirstWithOAuthId | src/lib/db.ts:40-43 | a row found has that OAuth id; none is found exactly when no row has it |
| Db.FirstWithOAuthIdIsFirst | src/lib/db.ts:40-43 | the row found is the first one with that OAuth id |
| Db.SetApiKey | src/lib/db.ts:79-82 | exactly the rows with that id get the new key and activity time; the others are unchanged |
| Db.FirstWithId | src/lib/db.ts:83 | the row returned has that id; none is returned exactly when no row has it |
| Db.SetRoleValue | src/lib/db.ts:109-112 | exactly the rows of that user and role get the new value |
| Db.AddRoleUpdates | src/lib/db.ts:108-114 | an existing pair is updated in place and no row is added |
| Db.AddRoleInserts | src/lib/db.ts:117-121 | a new pair is appended as exactly one row and nothing else changes |
| Db.AddRoleHolds | src/lib/db.ts:101-121 | afterwards the pair is present and every row of it holds the new value |
| Db.AddRoleKeepsUnique | src/lib/db.ts:101-121 | select-then-update-or-insert never creates a duplicate pair |
| Db.AddRoleIdempotent | src/lib/db.ts:86-122 | adding the same role with the same value twice is adding it once |
| Db.RolesOf | src/lib/db.ts:125-128 | the roles returned are exactly that user's rows |
| Db.Database.constructor | src/lib/db.ts:5-11 | the tables start as given, with distinct user ids below the next serial value |
| Db.Database.GetUserByOAuthId | src/lib/db.ts:39-44 | the scan returns the first row with that OAuth id, or none |
| Db.Database.CreateUser | src/lib/db.ts:46-76 | one row is appended whose id is new, whose client id is the digest of the OAuth id, with kudos 100, concurrency 30, public workers off and both times now; the role table is untouched; user ids stay distinct and below the serial |
| Db.Database.UpdateUserApiKey | src/lib/db.ts:78-84 | the key and activity time of that user's rows are rewritten and the updated row is returned; user ids stay distinct and below the serial |
| Db.Database.AddUserRole | src/lib/db.ts:86-122 | the role table becomes the update-or-insert of the parsed value; the users are untouched, so their ids stay distinct and below the serial |
| Db.Database.GetUserRoles | src/lib/db.ts:124-129 | that user's role rows, in table order |
| UpdateUsername.GetStableId | src/app/api/update-username/route.ts:6-20 | no id exactly when the session user or its id is missing or empty; otherwise the id unchanged |
| UpdateUsername.ValidateUsername | src/app/api/update-username/route.ts:23-52 | valid exactly when 3 to 100 characters of `[A-Za-z0-9_-]`; too short, then too long, then bad characters, only the first failure reported |
| UpdateUsername.ValidNameIsTrimmed | src/app/api/update-username/route.ts:94-97 | a valid name has nothing for `trim` to remove |
| UpdateUsername.HandlePost | src/app/api/update-username/route.ts:54-137 | 401, then 404, then 400 for a missing name, then the validation error, then the same-name 400, then 409, each without an update; the trimmed name is stored exactly when every check passes |
| UpdateUsername.CaseChangeRefused | src/app/api/update-username/route.ts:103-108 | a name differing only in letter case is refused before availability is asked |
| UpdateUsername.PaddedNameStoredTrimmed | src/app/api/update-username/route.ts:94-120 | padding around a valid new name is dropped before it is stored |
| GridModels.FetchedUrls | src/app/api/workers-count/route.ts:10-25 | `image` or `text` fetches that one list; anything else fetches both |
| GridModels.SelectModels | src/app/api/workers-count/route.ts:10-34 | a single type uses its list; otherwise the image list is followed by the text list; a failed fetch the route made gives none |
| GridModels.CombinedListOrder | src/app/api/models-count/route.ts:21-33 | without a valid type every model of both lists is present, image models first |
| WorkersCount.TallySpec | src/app/api/workers-count/route.ts:37-48 | the dictionary has one key per contributing name, holding the sum of that name's counts |
| WorkersCount.TallyFirstAppearance | src/app/api/workers-count/route.ts:37-48 | the dictionary's keys are created in the order in which the names first appear among the models |
| WorkersCount.Entries | src/app/api/workers-count/route.ts:51-56 | one entry per dictionary key, in the object's own-key order |
| WorkersCount.Names | src/app/api/workers-count/route.ts:51-56 | the names of the entries, one per entry, in order |
| WorkersCount.SumOverFresh | src/app/api/workers-count/route.ts:43 | setting a key that is not listed leaves the listed sum unchanged |
| WorkersCount.SumOverUpdate | src/app/api/workers-count/route.ts:43 | updating a listed key changes the listed sum by the difference |
| WorkersCount.TallyTotal | src/app/api/workers-count/route.ts:37-56 | nothing is lost or counted twice: the dictionary sums to the total of all contributing counts |
| WorkersCount.StepTotal | src/app/api/workers-count/route.ts:42-45 | one step of the reduce keeps the dictionary well formed and adds exactly the model's count when it contributes, nothing otherwise |
| WorkersCount.NewKeyTotal | src/app/api/workers-count/route.ts:43 | a name seen for the first time adds its count to the total |
| WorkersCount.EntriesOf | src/app/api/workers-count/route.ts:51-56 | one entry per listed key, in order, holding that key's value |
| WorkersCount.EntriesTotalIsSumOver | src/app/api/workers-count/route.ts:51-56 | the entries sum to the dictionary's sum over the listed keys |
| WorkersCount.SumOverAppend | src/app/api/workers-count/route.ts:51-56 | the sum over two key lists one after the other is the sum of their sums |
| WorkersCount.SumOverInsert | src/app/api/workers-count/route.ts:51 | inserting an array index among the index keys adds its value to the sum |
| WorkersCount.SumOverSorted | src/app/api/workers-count/route.ts:51 | sorting the array indices does not change the sum |
| WorkersCount.SumOverFilters | src/app/api/workers-count/route.ts:51 | the array-index keys and the other keys together sum to the whole |
| WorkersCount.SumOverOwnKeys | src/app/api/workers-count/route.ts:51 | listing the keys in own-key order does not change their sum |
| WorkersCount.StepWellFormed | src/app/api/workers-count/route.ts:38-46 | a reducer step keeps the key list free of duplicates and in step with the dictionary |
| WorkersCount.AggregateByName | src/app/api/workers-count/route.ts:37-56 | the reduce loop builds exactly the specified dictionary, and the entries are listed in its own-key order |
| WorkersCount.AggregateCovers | src/app/api/workers-count/route.ts:37-56 | every contributing name has an entry |
| WorkersCount.AggregateSums | src/app/api/workers-count/route.ts:37-56 | the entries carry distinct names, each with the sum of that name's contributing counts |
| WorkersCount.AggregateTotal | src/app/api/workers-count/route.ts:37-56 | the entries hold every contributing count exactly once |
| WorkersCount.AggregateSpec | src/app/api/workers-count/route.ts:37-56 | distinct names, each with its own sum, every contributing name present, and the entries total equal to the input total |
| WorkersCount.AggregateOrder | src/app/api/workers-count/route.ts:37-56 | names that are array indices come first in ascending numeric order; the other names follow in the order in which they first appear among the models |
| WorkersCount.HandleGet | src/app/api/workers-count/route.ts:3-62 | a failed fetch gives `NextResponse.error()`; otherwise the aggregated entries of the selected list, in own-key order |
| ModelsCount.NamesOfSpec | src/app/api/models-count/route.ts:37-42 | a name is counted exactly when some model carries it non-empty |
| ModelsCount.CountAtMostModels | src/app/api/models-count/route.ts:37-45 | the count never exceeds the number of models |
| ModelsCount.KnownNameKeepsCount | src/app/api/models-count/route.ts:37-45 | a further model with a counted name leaves the count unchanged |
| ModelsCount.NewNameAddsOne | src/app/api/models-count/route.ts:37-45 | a further model with a new non-empty name adds exactly one |
| ModelsCount.CountDistinctNames | src/app/api/models-count/route.ts:37-45 | the `Set` loop ends with the number of distinct truthy names |
| ModelsCount.HandleGet | src/app/api/models-count/route.ts:3-51 | a failed fetch gives `NextResponse.error()`; otherwise the distinct-name count, at most the list length |
| OpenAiModels.Or | src/app/api/openai/v1/models/route.ts:41 | `a \|\| b` is a when a is truthy and b otherwise |
| OpenAiModels.ModelId | src/app/api/openai/v1/models/route.ts:41 | the first truthy of `id`, `model` or `name`, else `unknown-model`; never empty |
| OpenAiModels.OwnedBy | src/app/api/openai/v1/models/route.ts:46 | the first truthy of `owned_by` or `owner`, else `aipowergrid`; never empty |
| OpenAiModels.Created | src/app/api/openai/v1/models/route.ts:43-45 | a truthy `created` is kept, otherwise the current epoch seconds |
| OpenAiModels.Transform | src/app/api/openai/v1/models/route.ts:40-47 | one item per model, in order, each built with the clock reading taken when the callback runs for it |
| OpenAiModels.TransformAppend | src/app/api/openai/v1/models/route.ts:40-47 | the transformation distributes over the image-then-text concatenation; the text models see the clock after the image models |
| OpenAiModels.StampsNeverDecrease | src/app/api/openai/v1/models/route.ts:43-45 | with a clock that never goes back, a later item without `created` never carries an earlier stamp |
| OpenAiModels.TransformShape | src/app/api/openai/v1/models/route.ts:40-47 | every item is a `model` object with a non-empty id and owner |
| OpenAiModels.HandleGet | src/app/api/openai/v1/models/route.ts:3-59 | a failed fetch gives `NextResponse.error()`; otherwise `{object: 'list', data}` over the selected list |
| WorkersRewards.Sanitize | src/app/api/workers-rewards/route.ts:7-9 | at most one quote goes from the front and one from the end; the rest is the untouched slice between |
| WorkersRewards.SanitizeBounds | src/app/api/workers-rewards/route.ts:7-9 | at most two characters are removed |
| WorkersRewards.SanitizeQuoted | src/app/api/workers-rewards/route.ts:7-9 | a quoted name loses exactly its quotes |
| WorkersRewards.SanitizeUnquoted | src/app/api/workers-rewards/route.ts:7-9 | a name without a quote at either end is unchanged |
| WorkersRewards.AddressIsSanitized | src/app/api/workers-rewards/route.ts:4-9 | an address holds no quote, so sanitising it changes nothing |
| WorkersRewards.AddressExcludesLookalikes | src/app/api/workers-rewards/route.ts:4 | an address never holds 0, O, I or l |
| WorkersRewards.RewardOf | src/app/api/workers-rewards/route.ts:37-47 | the record carries the id, the sanitized name, the requests fulfilled and the kudos rewards as given; the kudos generated and uptime come from the kudos details, null when those are missing |
| WorkersRewards.RewardsOf | src/app/api/workers-rewards/route.ts:30-47 | no more records than workers, and every record's name is an address |
| WorkersRewards.RewardsAppend | src/app/api/workers-rewards/route.ts:30-47 | the filter and map go worker by worker, keeping the input order |
| WorkersRewards.RewardsSingle | src/app/api/workers-rewards/route.ts:30-47 | one worker gives a record exactly when its sanitized name is an address |
| WorkersRewards.HandleGet | src/app/api/workers-rewards/route.ts:11-57 | a failed fetch or a worker without a string name gives 500; otherwise the rewards |
| HistoricalStats.EffectiveTimeframe | src/app/api/historical-stats/route.ts:6-16 | the parameter when it is whitelisted, otherwise `day` |
| HistoricalStats.EffectiveTimeframeIdempotent | src/app/api/historical-stats/route.ts:6-16 | an effective timeframe passed back in is kept |
| HistoricalStats.CountOf | src/app/api/historical-stats/route.ts:38-43 | the stored count, or 0 when the timeframe or the field is missing |
| HistoricalStats.HandleGet | src/app/api/historical-stats/route.ts:3-50 | either fetch failing gives `NextResponse.error()`; otherwise exactly `{text, image}` for the effective timeframe |
| HistoricalStats.UnknownTimeframeIsDay | src/app/api/historical-stats/route.ts:6-16 | an unknown or missing timeframe reads the same counts as `day` |
| GenerationStats.ValueOf | src/app/api/text-gen-stats/route.ts:29-31 | a present name gives its value in the table; a missing table or name gives 0 |
| GenerationStats.Dedup | src/app/api/text-gen-stats/route.ts:20-24 | the set keeps each name once, with the same membership, never growing |
| GenerationStats.DedupDistinct | src/app/api/text-gen-stats/route.ts:20-24 | names without duplicates are kept as they are |
| GenerationStats.DedupFirstOccurrence | src/app/api/text-gen-stats/route.ts:20-27 | the names come in the order of their first occurrence in the concatenated key lists |
| GenerationStats.RowsOf | src/app/api/text-gen-stats/route.ts:27-32 | one row per distinct name |
| GenerationStats.RowsSpec | src/app/api/text-gen-stats/route.ts:20-32 | row names are distinct, a row exists exactly for a key of `day`, `month` or `total`, and each row holds its three values with 0 for missing ones |
| GenerationStats.InsertDescPermutes | src/app/api/text-gen-stats/route.ts:35 | inserting adds exactly the one row |
| GenerationStats.InsertDescSorted | src/app/api/text-gen-stats/route.ts:35 | inserting into a descending sequence keeps it descending |
| GenerationStats.SortDescSpec | src/app/api/text-gen-stats/route.ts:35 | the result is sorted by total, largest first, and is a permutation of the input |
| GenerationStats.SortDescOfSorted | src/app/api/text-gen-stats/route.ts:35 | rows already in order stay where they are |
| GenerationStats.WithTotal | src/app/api/text-gen-stats/route.ts:35 | the rows of one total, each carrying that total, no more than the input |
| GenerationStats.WithTotalAppend | src/app/api/text-gen-stats/route.ts:35 | the rows of one total distribute over concatenation |
| GenerationStats.WithTotalNone | src/app/api/text-gen-stats/route.ts:35 | rows of other totals only have no rows of that total |
| GenerationStats.InsertDescStable | src/app/api/text-gen-stats/route.ts:35 | inserting into sorted rows places the new row after every row of the same total |
| GenerationStats.WithTotalCons | src/app/api/text-gen-stats/route.ts:35 | a leading row is kept exactly when it has the total |
| GenerationStats.InsertBehindStable | src/app/api/text-gen-stats/route.ts:35 | when the new row goes behind the first row, the rows of each total keep their order |
| GenerationStats.InsertInFrontStable | src/app/api/text-gen-stats/route.ts:35 | when the new row goes in front of smaller totals, no row of its own total follows it |
| GenerationStats.SortDescSorted | src/app/api/text-gen-stats/route.ts:35 | the sort is ordered by total, largest first |
| GenerationStats.SortDescStable | src/app/api/text-gen-stats/route.ts:35 | the sort is stable: the rows of any one total keep their input order |
| GenerationStats.InsertDescAt | src/app/api/text-gen-stats/route.ts:35 | the insertion lands after the rows whose totals are at least its own |
| GenerationStats.SortedPrefixAtLeast | src/app/api/text-gen-stats/route.ts:35 | in a descending sequence, a prefix above a total is followed only by rows not above it |
| GenerationStats.ShiftGreater | src/app/api/text-gen-stats/route.ts:35 | every row before the gap keeps its place, the rows from the gap on each move one right and all have smaller totals than the new row, and the row before the gap does not |
| GenerationStats.ShiftedIsInserted | src/app/api/text-gen-stats/route.ts:35 | the shifted rows with the new row in the gap are the specified insertion |
| GenerationStats.InsertAt | src/app/api/text-gen-stats/route.ts:35 | one in-place pass shifts the greater-index rows and puts the new row where the insertion specification puts it |
| GenerationStats.SortByTotalDesc | src/app/api/text-gen-stats/route.ts:35 | the array ends up as the specified descending sort of its old contents |
| GenerationStats.HandleGet | src/app/api/image-gen-stats/route.ts:3-40 | a failed fetch gives `NextResponse.error()`; otherwise the sorted rows of the three tables |
| GenerationStats.HandleGetSpec | src/app/api/text-gen-stats/route.ts:19-35 | the response is sorted by total, holds exactly the rows, and has a row exactly for every name of the three tables |
| GenerateApiKey.UpperHalfLetters | src/app/api/generate-api-key/route.ts:5 | the first half holds only upper-case letters |
| GenerateApiKey.LowerHalfLetters | src/app/api/generate-api-key/route.ts:5 | the second half holds only lower-case letters |
| GenerateApiKey.AlphabetIsLetters | src/app/api/generate-api-key/route.ts:5 | every character of the alphabet is an ASCII letter |
| GenerateApiKey.RandomLettersSpec | src/app/api/generate-api-key/route.ts:4-12 | for draws in [0,1), one letter per draw |
| GenerateApiKey.IndexOfDraw | src/app/api/generate-api-key/route.ts:8 | the draw k/52 is a valid `Math.random()` value and scales to index k |
| GenerateApiKey.EveryLetterReachable | src/app/api/generate-api-key/route.ts:8-9 | every letter is picked by some valid draw |
| GenerateApiKey.GenerateRandomLetters | src/app/api/generate-api-key/route.ts:4-12 | the loop builds exactly the specified letters |
| GenerateApiKey.RegistrationBody | src/app/api/generate-api-key/route.ts:30 | the body is `username=` followed by the username |
| GenerateApiKey.MatchPieces | src/app/api/generate-api-key/route.ts:37 | the opening part ends within the page, and a trailing `\s` run takes all the white space |
| GenerateApiKey.OpeningEnd | src/app/api/generate-api-key/route.ts:37 | the capture starts within the page, never at white space |
| GenerateApiKey.CaptureEnd | src/app/api/generate-api-key/route.ts:37 | where the lazy group ends, `\s*</p>` matches, at or after the group's start |
| GenerateApiKey.CaptureEndFirst | src/app/api/generate-api-key/route.ts:37 | the lazy group crosses no line terminator, and `\s*</p>` matches nowhere before its end: it ends at the first place the closing part matches |
| GenerateApiKey.TagCloseIsLiteral | src/app/api/generate-api-key/route.ts:37 | the closing-tag test is the case-insensitive match of the literal `</p>` |
| GenerateApiKey.MatchFlags | src/app/api/generate-api-key/route.ts:38 | one flag per start index, set exactly when the pattern matches there |
| GenerateApiKey.FirstTrue | src/app/api/generate-api-key/route.ts:38 | the leftmost set flag, and none exactly when no flag is set |
| GenerateApiKey.ClosesAcrossWhitespace | src/app/api/generate-api-key/route.ts:37 | white space before a closing tag belongs to the closing `\s*` |
| GenerateApiKey.CaptureEndsSolid | src/app/api/generate-api-key/route.ts:37 | the lazy group never ends in white space |
| GenerateApiKey.CaptureShape | src/app/api/generate-api-key/route.ts:37 | a capture has no line terminator and no white space at either end |
| GenerateApiKey.MatchAtShape | src/app/api/generate-api-key/route.ts:37-39 | the capture is the slice of the page that starts where the opening part ends; the closing part matches right after it and nowhere inside it |
| GenerateApiKey.ExtractedIsLeftmost | src/app/api/generate-api-key/route.ts:37-39 | the key `match` returns is the capture at an index before which no match starts |
| GenerateApiKey.FramedByLeftmostMatch | src/app/api/generate-api-key/route.ts:37-39 | the capture of the leftmost match sits between the opening part and the closing part |
| GenerateApiKey.ExtractApiKeySpec | src/app/api/generate-api-key/route.ts:36-40 | an extracted key is non-empty, on one line, already trimmed, and sits right after the leftmost opening part that matches, ending at the first `\s*</p>` after it |
| GenerateApiKey.FramedKeyIsExtracted | src/app/api/generate-api-key/route.ts:36-40 | conversely, a non-empty one-line string framed that way at the leftmost match is exactly the key the route extracts |
| GenerateApiKey.FramedCapture | src/app/api/generate-api-key/route.ts:37 | a one-line string followed by the first closing part is exactly what the lazy group captures |
| GenerateApiKey.CaptureRunsTo | src/app/api/generate-api-key/route.ts:37 | the lazy group runs to the first place where the closing part matches |
| GenerateApiKey.KeyParagraphTag | src/app/api/generate-api-key/route.ts:37 | `<p` matches at the start of the key paragraph, and one space follows |
| GenerateApiKey.KeyParagraphStyle | src/app/api/generate-api-key/route.ts:37 | the style attribute matches after it, and one space follows |
| GenerateApiKey.KeyParagraphColor | src/app/api/generate-api-key/route.ts:37 | `darkorange` matches next, with no space after it |
| GenerateApiKey.KeyParagraphTagEnd | src/app/api/generate-api-key/route.ts:37 | `;">` ends the tag, and the key follows directly |
| GenerateApiKey.KeyParagraphPieces | src/app/api/generate-api-key/route.ts:37 | where each piece of the opening part begins and ends in the key paragraph |
| GenerateApiKey.OpeningOfKeyParagraph | src/app/api/generate-api-key/route.ts:37 | the opening part matches the key paragraph and ends right after it |
| GenerateApiKey.KeyDoesNotClose | src/app/api/generate-api-key/route.ts:37 | no place inside an alphanumeric key closes the group |
| GenerateApiKey.CloseAfterKey | src/app/api/generate-api-key/route.ts:37 | right after the key, the closing tag matches |
| GenerateApiKey.KeyRunsToClose | src/app/api/generate-api-key/route.ts:37 | after the opening part, the group takes the whole alphanumeric key |
| GenerateApiKey.KeyMatchesAtStart | src/app/api/generate-api-key/route.ts:37-39 | the match at the start of the key paragraph captures the key |
| GenerateApiKey.ExtractsIssuedKey | src/app/api/generate-api-key/route.ts:36-40 | a page holding the key paragraph, an alphanumeric key and `</p>`, after any text without `<` and before anything at all, yields exactly that key |
| GenerateApiKey.NoMatchWithoutTag | src/app/api/generate-api-key/route.ts:37 | no match starts at an index that does not hold `<` |
| GenerateApiKey.NoMatchInPlainText | src/app/api/generate-api-key/route.ts:37 | no match starts inside text that holds no `<` |
| GenerateApiKey.LeftmostMatch | src/app/api/generate-api-key/route.ts:38-40 | when the first match starts at p, its capture is the key, or none when the capture is empty |
| GenerateApiKey.ShiftBy | src/app/api/generate-api-key/route.ts:37 | a position moved right by a prefix's length, or none |
| GenerateApiKey.SkipWhitespaceShift | src/app/api/generate-api-key/route.ts:37 | a run of `\s` is skipped the same way after a prefix |
| GenerateApiKey.LiteralShift | src/app/api/generate-api-key/route.ts:37 | a literal matches the same way after a prefix |
| GenerateApiKey.MatchPiecesShift | src/app/api/generate-api-key/route.ts:37 | the part before the capture matches the same way after a prefix |
| GenerateApiKey.LiteralStepShift | src/app/api/generate-api-key/route.ts:37 | a literal piece followed by the rest matches the same way after a prefix |
| GenerateApiKey.SpacesStepShift | src/app/api/generate-api-key/route.ts:37 | a run of `\s` followed by the rest matches the same way after a prefix |
| GenerateApiKey.ClosesShift | src/app/api/generate-api-key/route.ts:37 | the closing `\s*</p>` matches the same way after a prefix |
| GenerateApiKey.CaptureEndShift | src/app/api/generate-api-key/route.ts:37 | the lazy group ends at the same place after a prefix |
| GenerateApiKey.CaptureShift | src/app/api/generate-api-key/route.ts:37 | the captured key is the same text, at the same offset, after a prefix |
| GenerateApiKey.OpeningEndShift | src/app/api/generate-api-key/route.ts:37 | the opening part ends at the same place after a prefix |
| GenerateApiKey.MatchAtShift | src/app/api/generate-api-key/route.ts:37 | a match depends only on the text from where it starts |
| GenerateApiKey.NoTagNoKey | src/app/api/generate-api-key/route.ts:36-40 | a page without `<` yields no key |
| GenerateApiKey.HandlePost | src/app/api/generate-api-key/route.ts:47-56 | the registration body is `username=` and 14 random letters; no page or no key gives 500 `Failed to fetch API key`; otherwise exactly `{apiKey}` |
| WorkersList.StatusLabel | src/features/workers/components/workers-list-view.tsx:92 | `Online` exactly when the worker is online, `Offline` exactly when not |
| WorkersList.PerformanceCell | src/features/workers/components/workers-list-view.tsx:96 | `N/A` when the performance is missing or empty, otherwise the performance |
| WorkersList.UptimeOf | src/features/workers/components/workers-list-view.tsx:139-144 | hours below 24, minutes below 60, and the days, hours and minutes cover the seconds to within a minute |
| WorkersList.DivisionsSplit | src/features/workers/components/workers-list-view.tsx:140-142 | the three floor divisions split the seconds into days, hours and minutes |
| WorkersList.DaysUnique | src/features/workers/components/workers-list-view.tsx:140 | the day count is the only one that brackets the seconds |
| WorkersList.HoursUnique | src/features/workers/components/workers-list-view.tsx:141 | the hour count is the only one that brackets the remainder |
| WorkersList.MinutesUnique | src/features/workers/components/workers-list-view.tsx:142 | the minute count is the only one that brackets the remainder |
| WorkersList.RemainderOfHours | src/features/workers/components/workers-list-view.tsx:142 | the remainder modulo an hour is determined by the split |
| WorkersList.UptimeUnique | src/features/workers/components/workers-list-view.tsx:139-144 | exactly one triple splits a number of seconds, so the rendering names the uptime unambiguously |
| WorkersList.FieldHasNoSpace | src/features/workers/components/workers-list-view.tsx:143 | a rendered field holds no space |
| WorkersList.FormatUptimeReadsBack | src/features/workers/components/workers-list-view.tsx:139-144 | the rendering splits at its spaces into `{d}d`, `{h}h` and `{m}m`, whose digits read back as the days, hours and minutes |
| WorkersList.ExtractBridgeAgent | src/features/workers/components/workers-list-view.tsx:146-149 | `N/A` for a missing or empty agent; otherwise a colon-free prefix that stops at the first colon or the end |
| WorkersList.BridgeAgentUnique | src/features/workers/components/workers-list-view.tsx:146-149 | the result is the only prefix with those properties |
| WorkersList.BridgeAgentWithoutColon | src/features/workers/components/workers-list-view.tsx:146-149 | an agent without a colon is shown whole |
| WorkersList.FilterWorkers | src/features/workers/components/workers-list-view.tsx:43-45 | the filter never shows more workers than are listed |
| WorkersList.FilterWorkersSpec | src/features/workers/components/workers-list-view.tsx:43-45 | a worker is shown exactly when it is listed and its lower-cased name includes the lower-cased term |
| WorkersList.FilterAppend | src/features/workers/components/workers-list-view.tsx:43-45 | the filter keeps the list order |
| WorkersList.EmptySearchKeepsAll | src/features/workers/components/workers-list-view.tsx:43-45 | an empty search shows every worker |
| WorkersList.SearchIgnoresCase | src/features/workers/components/workers-list-view.tsx:43-45 | an upper-cased term shows the same workers |
| WorkersList.SameLoweredTermSameFilter | src/features/workers/components/workers-list-view.tsx:43-45 | terms with the same lower case show the same workers |
| ApiKeyPage.HexDigit | src/features/api-key/components/api-key-view-page.tsx:18 | a digit below 16 renders as a lowercase hex digit |
| ApiKeyPage.DigitValue | src/features/api-key/components/api-key-view-page.tsx:18 | a hex digit reads as a value below 16 |
| ApiKeyPage.DigitRoundTrip | src/features/api-key/components/api-key-view-page.tsx:18 | reading a rendered digit gives it back |
| ApiKeyPage.ToHexString | src/features/api-key/components/api-key-view-page.tsx:18 | `toString(16)` gives at least one lowercase hex digit |
| ApiKeyPage.PadStart | src/features/api-key/components/api-key-view-page.tsx:18 | `padStart` reaches the target length and never shortens |
| ApiKeyPage.PaddedByte | src/features/api-key/components/api-key-view-page.tsx:18 | a padded byte is its high digit and then its low digit |
| ApiKeyPage.ByteHex | src/features/api-key/components/api-key-view-page.tsx:17-18 | each byte is exactly two hex digits that spell the byte |
| ApiKeyPage.HexEncode | src/features/api-key/components/api-key-view-page.tsx:17-19 | twice as many characters as bytes, all lowercase hex |
| ApiKeyPage.HexEncodePairs | src/features/api-key/components/api-key-view-page.tsx:17-19 | pair i of the key is the rendering of byte i, so the bytes appear in order |
| ApiKeyPage.PairByte | src/features/api-key/components/api-key-view-page.tsx:18 | two hex digits spell the byte sixteen times the first plus the second |
| ApiKeyPage.HexDecodeSnoc | src/features/api-key/components/api-key-view-page.tsx:17-19 | decoding reads the last two digits as the last byte |
| ApiKeyPage.HexDecode | src/features/api-key/components/api-key-view-page.tsx:17-19 | reading the pairs gives one byte per two characters |
| ApiKeyPage.DecodeEncode | src/features/api-key/components/api-key-view-page.tsx:17-19 | decoding the key gives back the random bytes |
| ApiKeyPage.EncodeInjective | src/features/api-key/components/api-key-view-page.tsx:17-19 | different random bytes give different keys |
| ApiKeyPage.ApiKeyGenerator.constructor | src/features/api-key/components/api-key-view-page.tsx:10-11 | the page starts with an empty key, not generated |
| ApiKeyPage.ApiKeyGenerator.GenerateApiKey | src/features/api-key/components/api-key-view-page.tsx:13-22 | the state holds the encoding of the 16 random bytes, 32 lowercase hex digits, and `generated` is true; a new call replaces the old key |

## Left out

- Transport: `fetch`, axios, the HTTPS agent, `TextEncoder` and the poll and chunk delays are not modelled. Each upstream exchange is a reply value. A poll consumes a finite reply sequence, and running out of replies is reported as no response yet, where the source waits forever.
- Nondeterminism: `uuidv4`, `Date.now`, `Math.random`, `crypto.getRandomValues` and the md5 digest are parameters. Hashing itself is not modelled, so `Db.Database.CreateUser` states only that the client id is a function of the OAuth id.
- `JSON.stringify` is an opaque `serialize` parameter wherever wire text matters, as in the chat stream's frames. Bodies that are not valid JSON are one case, and fields of the wrong JSON type are not modelled, except the rename route's `username`, whose type check matters.
- Floating point: temperature, `top_p` and `cfg_scale` are carried as reals and never computed with. `Math.random()` draws are reals in [0, 1).
- The API-key page's `Uint8Array` is an `array<byte>`. The value returned by `getRandomValues` is an input sequence.
- `Object.keys` order in the stats routes: each table's key order is read from the reply as an input. The own-key rule that lists array indices first, which `workers-count` follows through `JsText.OwnKeys`, is not imposed on it.
- Keys inherited from `Object.prototype` and non-numeric JSON values in the stats tables are not modelled.
- `WorkersCount.AggregateByName` and `WorkersCount.HandleGet`: a model name that is also a property of `Object.prototype` (`constructor`, `toString`, `__proto__` and the like) is treated as an ordinary key. In the source, `acc[model.name] || 0` reads the inherited value for such a name, and a `__proto__` key is never stored. This is not modelled.
- `JsText.ToLower` and `JsText.ToUpper` map ASCII letters only. JavaScript's full Unicode case mapping is not modelled.
- String lengths count characters, not UTF-16 code units.
- `WorkersList.UptimeOf`: over natural numbers only. Negative or fractional uptimes are not modelled.
- `WorkersList`: the `toLocaleString` rendering of `requests_fulfilled` is locale formatting and is not modelled. The `type` and `models` cells are plain rendering. The React state and the `fetch` of `/api/workers` are not modelled.
- `GenerateApiKey.HandlePost`: any exception inside `fetchApiKey` is the `None` page. The route's outer 500 `Internal server error` catch is unreachable and is not modelled.
- `UpdateUsername.HandlePost`: the bodies of `isUsernameAvailable` and `updateUsername` are not part of this model; their results are parameters. Database errors and the route's 500 catch are not modelled.
- `UpdateUsername.GetStableId`: the `includes('_')` test is modelled, but both of its branches return the id.
- `Db`: SQL text, the connection pool, query logging and database errors are not modelled. `NOW()` is a parameter.
- `Db.Database.AddUserRole` and `Db.Database.GetUserRoles` return the rows as the model stores them. Postgres row order and the `RETURNING *` column set are not modelled.
- `CompletionsV1.HandlePost`: the session id the v1 completions route computes and never uses is not modelled.
- `OpenAiModels.Created`: `Number(model.created)` is modelled on integer `created` values only.
- `src/app/api/models/route.ts` is the plain type selection, `GridModels.SelectModels`. `src/app/api/workers/route.ts`, the API documentation route and the static data are not part of this model.
- Client-only UI and authentication plumbing (React pages, wallet and OAuth buttons, the nonce route) are not part of this model.
