# Per-client dialogue state of the Capisci chat server

The server keeps one dialogue per client. The dialogues live in memory, in a
plain JavaScript object `conversationHistories` that maps a client key to a
transcript. A transcript is an array of `{role, content}` turns. This project
models that state manager and proves properties of the model:

- **Client identity** (`identity.dfy`). The key is the `X-Client-ID` header
  when it is truthy. Otherwise it is the `clientId` query parameter when that
  is truthy. Otherwise it is `<X-Forwarded-For>-<User-Agent>` cut to 100
  characters. A missing header counts as "".
- **Key order** (`property_order.dfy`). `Object.keys` lists keys in creation
  order. Assigning to a new key puts it last. Assigning to an existing key
  keeps its place. `delete` removes the key and leaves the others in order.
- **One chat request** (`dialogue.dfy`). `Exchange` is the pure effect of
  `/api/chat` on one transcript. A falsy message is rejected. Otherwise the
  user's turn is pushed and the provider is called with the whole transcript.
  On success the assistant's turn is pushed. On failure the user's turn stays.
  The lemmas show three things. Answered requests keep the transcript
  alternating. A failure leaves an unanswered user turn. The next request
  after a failure then sends the provider two user turns in a row.
- **The store** (`sessions.dfy`). Class `Store` has the key-to-transcript map
  and the key order as fields. Its invariant says three things: each key is
  listed once, the listed keys are exactly the stored ones, and every
  transcript starts with the greeting. On top of the class sit the
  get-or-create step, `/api/chat`, `/api/reset`, the read-only `/api/debug`
  and the hourly cleanup. The cleanup is a loop of `delete` over the first
  `|keys| - 1000` keys.

The completion provider is a parameter `complete: seq<Turn> -> Outcome`. It
receives the transcript it is sent and either answers with a text or fails.
Each handler runs as one atomic step.

Points where `server.js` does something a reader might not expect:
- On a failed provider call, `server.js` does not roll back the user turn
  (server.js:106, 123-126).
- The transcript is created before the empty-message check, so an empty
  message to a new key still leaves a seeded transcript behind
  (server.js:94-103).
- Every provider failure becomes the same 500 reply. There are no separate
  authentication or rate-limit errors.
- The greeting turn has role `assistant`. There is no separate seed role.

## Model

| member | source | states |
|---|---|---|
| JsValues.OrEmpty | server.js:69-70 | Defaulting a header to '' only replaces a missing value: a present header, even an empty one, comes back as itself |
| JsValues.SliceTo | server.js:71 | `slice(0, 100)` gives a prefix of the string whose length is the smaller of the string's length and 100 |
| Identity.ClientId | server.js:58-77 | A truthy header wins. Otherwise a truthy query parameter wins. Otherwise the key is a prefix of `forwardedFor + "-" + userAgent` (missing parts as ""), at most 100 long, and the whole string unless it was cut at 100. The key is never empty |
| PropertyOrder.Assigned | server.js:95 | Assigning a key adds exactly that key to the enumeration order, keeps the old order as a prefix, grows it by at most one, and keeps it free of repeats |
| PropertyOrder.AssignedIdempotent | server.js:135 | Assigning the same key twice leaves the same order as assigning it once, which is what makes reset idempotent |
| PropertyOrder.Without | server.js:175 | Deleting a key leaves exactly the other keys, adds no repeats, and never lengthens the order |
| PropertyOrder.WithoutAbsent | server.js:175 | Deleting a key that is not present leaves the order unchanged |
| PropertyOrder.WithoutAt | server.js:175 | In an order without repeats, deleting the key at position i gives exactly the keys before it followed by the keys after it, so the others keep their relative order |
| PropertyOrder.WithoutFirst | server.js:172-176 | In an order without repeats, deleting the first key gives exactly the rest of the order |
| PropertyOrder.DistinctCardinality | server.js:168-169 | An order without repeats has as many distinct keys as its length, so `Object.keys(...).length` is the number of dialogues |
| Dialogue.Exchange | server.js:99-126 | A request keeps the old transcript as a prefix. It rejects exactly a falsy message, and that case adds no turn. On success it adds exactly `{user, message}` then `{assistant, text}`, where the provider answered `text` when shown the old transcript plus the user turn. On failure it adds exactly the user turn |
| Dialogue.SeedSettled | server.js:83-86 | The fresh transcript `[initialMessage]` is a settled dialogue: one assistant greeting and no unanswered user turn |
| Dialogue.AnsweredKeepsSettled | server.js:101-122 | A request that the provider answers, or that carries no message, keeps user and assistant turns alternating after the greeting, ending with the assistant |
| Dialogue.FailureLeavesUserTurnLast | server.js:106-126 | After a failed provider call the transcript is one turn longer, ends with the unanswered user turn, and is no longer settled |
| Dialogue.RetryAfterFailureRepeatsUser | server.js:106-126 | The request after a failure sends the provider the old transcript followed by two consecutive user turns, and is answered exactly when the provider answers that; its transcript then holds the two user turns side by side |
| Dialogue.ReliableProviderKeepsSettled | server.js:89-127 | If the provider never fails, any sequence of requests keeps a settled transcript settled |
| Dialogue.ReliableProviderLength | server.js:89-127 | If the provider never fails and every request has a message, each request adds exactly two turns |
| Sessions.DomainSize | server.js:168-169 | With the store invariant, the number of stored dialogues equals the length of the key order |
| Sessions.Store.constructor | server.js:6 | The store starts with no keys and no transcripts |
| Sessions.Store.GetOrCreate | server.js:93-99 | An unseen key is mapped to exactly `[initialMessage]` and listed last. An existing key keeps its transcript and its place. Nothing else changes, and the invariant holds |
| Sessions.Store.Push | server.js:106-120 | Appends one turn to a stored transcript. No other transcript and not the key order change |
| Sessions.Store.Chat | server.js:89-127 | Only the requesting key's transcript changes, and it becomes what `Exchange` gives from the stored transcript (or from `[initialMessage]` for a new key). The reply is `Exchange`'s reply. The key is listed last if it was new |
| Sessions.Store.Reset | server.js:130-142 | The key maps to `[initialMessage]` whether or not it existed. Every other key and transcript is unchanged, and an existing key keeps its place |
| Sessions.Store.Debug | server.js:145-159 | Reads only. For a stored key it reports the transcript's length and the greeting as first content. For an unseen key it reports length 0 and no content. The length is 0 exactly when the key is unseen |
| Sessions.Store.Delete | server.js:175 | Removes one key and its transcript. The other keys keep their transcripts; the order loses exactly that key's position and the others keep their relative order; deleting an absent key changes nothing |
| Sessions.Store.DeleteAll | server.js:172-176 | Deleting a leading run of keys in enumeration order leaves the rest of the order and removes exactly those keys' transcripts |
| Sessions.Store.Sweep | server.js:162-180 | With at most the bound, nothing changes. Above it, exactly the first `count - bound` keys are removed, the survivors keep their transcripts and their relative order, and exactly `bound` dialogues remain |
| Sessions.Store.Cleanup | server.js:165-177 | `Sweep` with the bound fixed at 1000 |
| Sessions.SweepEvictsOldest | server.js:166-177 | Clients A to E are created in that order and A then chats. A sweep bounded by 3 leaves exactly C, D, E. The order of creation decides, not recent use |

## Left out

- Express routing, CORS origin checks, JSON body parsing, HTTP status framing and `app.listen` (server.js:1-12, 36-55, 183-185) are transport. A reply is the `Reply` datatype: response, missing message (400) or server error (500).
- `decryptKey` and loading the API key (server.js:15-29) are AES-256-CBC through Node's `crypto`, a foreign call.
- The Anthropic SDK call (server.js:31-33, 110-117) is the abstract `complete` parameter. Model name, `max_tokens` and the system prompt are constants passed unchanged and are not modelled. A response without a first content block throws inside the `try`, so it is one more `Failed`.
- Scheduling is left out: the `setInterval` timer runs `Cleanup` hourly. Concurrency is left out too. The `await` at server.js:110 lets requests for the same key interleave their pushes, and `clientHistory` keeps a reference to an array that a reset or a cleanup during the call may already have replaced or removed. Each handler is modelled as one atomic step on values, so that aliasing is not captured.
- Console logging, and the catch blocks of `/api/reset` and `/api/debug`, which cannot fire in the model.
- The key order is modelled as creation order. `Object.keys` lists integer-like keys such as "42" first, in numeric order, and the model does not capture that.
- Keys are assumed not to be names inherited from `Object.prototype` (such as `constructor`). For those, `conversationHistories[clientId]` is already truthy, so no transcript is created.
- Identity.ClientId: a `clientId` query given several times arrives as an array and is turned into a string. This is not modelled; the query value is a single optional string. JavaScript's `slice` counts UTF-16 code units, while the model counts Unicode characters.
- Dialogue.Exchange: the message is a single optional string. A truthy non-string body value, such as a number, is not modelled.
