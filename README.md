# Metered parking settlement: a Dafny model

This project models the settlement pipeline of a metered parking system.
It has three services and a signing helper, all sharing one key/value store
(`/events`, `/sessions`, `/payments`):

- **ingestor** (`/ingest/scan`): checks the HMAC-SHA256 signature of a
  scanner event and records the event. It opens a `pending` session on
  `entry` and marks the vehicle's open session `ending` on `exit`.
- **meter worker** (`process_tick`): brings each `active` or `ending`
  session's accrued charge up to whole elapsed minutes times its rate. It
  asks the payments agent to release what is owed, in batches that the
  threshold and batch limit bound. It ends `ending` sessions with a final,
  uncapped release.
- **payments agent**:
  - `create_payment` opens a Masumi escrow for a session;
  - a poller marks payments funded when the escrow reports a funded
    on-chain state, and activates their sessions;
  - `release` submits a result hash for an amount. It replays a release
    already recorded under the same idempotency key and books the amount
    on the session (`tx_update`).
- **hmac_post helper**: signs a payload the same way the ingestor checks
  it.

## Files and modules

- `json.dfy`:
  - `Wrappers` holds the `Option` type.
  - `Json` holds decoded JSON values, Python truthiness and `int(...)`, and
    `str(n)` with its inverse. It also renders flat objects as
    `json.dumps` does with `ensure_ascii` escaping, and renders `hexdigest`.
- `canonical.dfy`, module `Canonical`: payloads as ordered items with
  distinct keys. It models dropping `sig`, the key order `sort_keys` uses,
  and the canonical text that is signed.
- `signature.dfy`, module `Signature`: `compute_sig`. HMAC-SHA256 is a
  function-typed parameter.
- `records.dfy`, module `Records`:
  - the session, payment, release and event records;
  - `percent_fields`;
  - the `Store` class, whose `Valid()` invariant every operation keeps:
    - each payment is stored under its own blockchain identifier;
    - each payment belongs to a stored session;
    - a payment with releases is funded;
    - idempotency keys within one payment are distinct.
- `ingestor.dfy`, module `Ingestor`: the `IngestService` class.
- `meter_worker.dfy`, module `MeterWorker`: the `Worker` class and the
  functions that specify a tick.
- `payments_agent.dfy`, module `PaymentsAgent`: the `Agent` class and the
  functions that specify the poller, escrow creation and release.
- `hmac_post.dfy`, module `HmacPost`: the client-side signer.
- `pipeline.dfy`, module `Pipeline`: worked scenarios across the worker and
  the agent.

The service code mutates the store in place. The model therefore uses one
`Store` class with `seq`/`map` fields and a class per service, whose
methods carry `modifies store`. Each method is proved against a
specification function of the old state, such as `TickSessions`,
`PolledPayments` or `Repoll`. Those functions carry the lemmas.

Calls to the Masumi service are parameters of type `HttpOutcome`: either
the client raised, or there was an answer with a status code and a JSON
body or a non-JSON one. Other outside values are parameters too:
- the clock (`now`);
- the order in which a read of a collection lists its children (`order`,
  which enumerates the keys once each);
- the random identifiers the services draw.

An uncaught Python exception in a request handler becomes a 500 reply.
The store is left as it stood at the point of the exception.

On these points the model follows the code as written:
- `exit` closes the first open session of the vehicle in the order a read
  of `/sessions` lists them (ingestor/main.py:97-100).
- The ingestor's default escrow deposit is read from
  `RELEASE_THRESHOLD_CENTS` (ingestor/main.py:57).
- A `start_ts` of 0 is falsy and counts as "now", so such a session
  accrues nothing (meter_worker/worker.py:29).
- `last_tick_ts` is stamped only when the accrued charge goes up
  (meter_worker/worker.py:41-43).
- `release` checks neither that the amount is at most the unpaid balance
  nor that the session named is the payment's session
  (payments_agent/main.py:249-255). No lemma here claims
  `released <= accrued`.

## Model

| member | source | states |
|---|---|---|
| Json.DecimalRoundTrip | payments_agent/main.py:81-83 | `int(str(n)) == n` for every integer, so a lovelace amount reads back as the integer it came from |
| Json.DecimalInjective | meter_worker/worker.py:57-69 | distinct integers have distinct decimal renderings (used for the idempotency keys) |
| Json.ToInt | ingestor/main.py:56-58 | `int(v)` keeps integers, fails on `None`, and parses strings as an optional sign followed by digits |
| Json.EscapeChar | ingestor/main.py:25 | each character is escaped to printable ASCII, and only the plain printable characters other than quote and backslash are copied as themselves |
| Json.UnescapeEscapeChar | ingestor/main.py:25 | every `ensure_ascii` escape, surrogate pairs included, reads back as the character it came from, whatever text follows it |
| Json.UnescapeRoundTrip | ingestor/main.py:25 | a string literal reads back as the string it was made from, and reading stops at its closing quote |
| Json.ParseEncodeScalar | ingestor/main.py:25 | a rendered scalar (null, boolean, integer, string) followed by the end of the text or by `,` reads back as itself |
| Json.ParseEncodeMembers | ingestor/main.py:25 | the members of a flat object, rendered with `(',', ':')` or the default `(', ', ': ')` separators, read back as the same items in the same order |
| Json.ParseEncodeObject | ingestor/main.py:25 | `json.dumps` of a flat object, with separators `(',', ':')` or the default ones, reads back as the same items in the same order, so the rendering loses nothing |
| Json.EncodeObjectInjective | ingestor/main.py:25 | distinct item sequences have distinct renderings under either pair of separators |
| Canonical.Get | ingestor/main.py:43 | `payload.get(k)` finds the item under `k` when there is one, and reports absence exactly when no item has that key |
| Canonical.WithoutMembers | ingestor/main.py:24 | the comprehension keeps exactly the items whose key is not `sig` |
| Canonical.WithoutDistinct | ingestor/main.py:24 | dropping `sig` keeps the keys distinct |
| Canonical.WithoutAppend | ingestor/main.py:24 | dropping a key commutes with concatenating payloads |
| Canonical.LexTransitive | ingestor/main.py:25 | the key order `sort_keys` uses is transitive |
| Canonical.LexTotal | ingestor/main.py:25 | any two distinct keys are ordered one way or the other |
| Canonical.SortByKeySorted | ingestor/main.py:25 | sorting distinct keys gives a strictly increasing key sequence with the same items |
| Canonical.SortedUnique | ingestor/main.py:25 | two key-sorted sequences with the same items are equal, so the sorted form is unique |
| Canonical.Canonical | ingestor/main.py:24-25 | the object that is serialised is key-sorted and holds exactly the items other than `sig` |
| Canonical.CanonicalDeterminedBySignedFields | ingestor/main.py:24-25 | two payloads have the same sorted item sequence if and only if they hold the same items other than `sig` |
| Canonical.CanonicalText | ingestor/main.py:24-25 | the signed text is printable ASCII and reads back as the sorted items other than `sig` |
| Canonical.CanonicalTextDeterminedBySignedFields | ingestor/main.py:24-25 | two payloads serialise to the same signed text if and only if they hold the same items other than `sig`; any change to a signed item changes the text |
| Canonical.AttachSig | helpers/hmac_post.py:25 | after `payload['sig'] = sig` the payload carries that signature and the items other than `sig` are untouched |
| Canonical.ReplaceSame | helpers/hmac_post.py:25 | writing a key's current value back changes nothing |
| Canonical.AttachSigIdempotent | helpers/hmac_post.py:25 | attaching the same signature twice is the same as attaching it once |
| Signature.ComputeSig | ingestor/main.py:22-27 | the signature is 64 lower-case hex digits |
| Signature.SigDependsOnlyOnSignedFields | ingestor/main.py:22-27 | the signature depends only on the items other than `sig`: not on their order, and not on a `sig` already present |
| HmacPost.Sign | helpers/hmac_post.py:24-25 | the signed payload carries the signature of the original under `sig`, keeps every other item, and is non-empty |
| HmacPost.SignatureVerifiesOnSignedPayload | helpers/hmac_post.py:8-12 | recomputing the signature over the signed payload gives back the attached signature |
| HmacPost.ClientSignatureAccepted | helpers/hmac_post.py:8-12 | a payload the helper signed with the ingestor's key passes the ingestor's signature check |
| HmacPost.SignIdempotent | helpers/hmac_post.py:24-25 | signing an already signed payload changes nothing |
| Records.PercentFields | ingestor/main.py:29-35 | each percentage times its positive denominator equals released × 100; it is 0 when the denominator is not positive |
| Ingestor.CompareDigest | ingestor/main.py:49 | the comparison accepts exactly the expected hex string; a non-string or non-ASCII signature raises |
| Ingestor.FirstOpen | ingestor/main.py:95-103 | the result is an active or pending session of the vehicle, and no earlier session in listing order qualifies; it is absent if and only if no session qualifies |
| Ingestor.FindOpenSession | ingestor/main.py:96-100 | the scanning loop returns the session `FirstOpen` specifies |
| Ingestor.IngestService.constructor | ingestor/main.py:15 | the service holds the shared key, the MAC and the rate and escrow defaults |
| Ingestor.IngestService.Screen | ingestor/main.py:39-69 | an event is admitted if and only if it is non-empty, authentic and its rate, escrow and timestamp parse; an empty body is 400; an inauthentic one is 401 when its `sig` is an ASCII string and 500 otherwise (the comparison raises); an authentic one with an unparsable number is 500; an admitted event records the payload, its `type` and `scanner_id`, the expected signature and exactly the parsed rate, escrow and timestamp |
| Ingestor.IngestService.CloseSession | ingestor/main.py:93-109 | the first open session of the vehicle becomes `ending`, with every other field and session unchanged; with none it is 404 and nothing changes |
| Ingestor.IngestService.Admit | ingestor/main.py:60-112 | the event is appended; `entry` adds a pending session with zero ledgers under the new id; `exit` closes as above; any other type is 400 with sessions unchanged |
| Ingestor.IngestService.IngestScan | ingestor/main.py:37-112 | a rejected event leaves the store unchanged; an admitted one is recorded and applied as above; if every stored event carried the expected signature, they all still do; payments are never touched |
| MeterWorker.ElapsedMinutes | meter_worker/worker.py:29-33 | the whole minutes elapsed: `m*60 <= now-start < m*60+60`, and 0 when the start is in the future |
| MeterWorker.Accrue | meter_worker/worker.py:36-44 | the accrued charge becomes the larger of the current charge and the target; the tick time is stamped only when it rises; nothing else changes |
| MeterWorker.TickSession | meter_worker/worker.py:24-64 | a billable session's accrued charge becomes the larger of its current charge and whole minutes × rate, and the tick time is stamped exactly when the charge rises; released is untouched; a non-billable session is unchanged; an active session changes in nothing else, and an ending one also becomes ended at `now` |
| MeterWorker.RequestFor | meter_worker/worker.py:48-73 | active: a release is requested if and only if a payment exists and unpaid ≥ threshold, for exactly `min(unpaid, batch limit)` with the batch key; ending: if and only if a payment exists and unpaid > 0, for the full balance with the final key; the amount never exceeds the unpaid balance |
| MeterWorker.TickSessions | meter_worker/worker.py:24-64 | a tick neither adds nor removes sessions |
| MeterWorker.Ticks | meter_worker/worker.py:75-81 | repeated ticks neither add nor remove sessions |
| MeterWorker.AccrueIdempotent | meter_worker/worker.py:36-44 | re-applying a reached target is a no-op, whatever the time |
| MeterWorker.AccrualNeverDecreases | meter_worker/worker.py:36-46 | over any sequence of ticks no accrued charge goes down and no released amount changes |
| MeterWorker.TickSessionsIdempotent | meter_worker/worker.py:21-64 | a second tick at the same time leaves the sessions as the first left them |
| MeterWorker.RetryRequest | meter_worker/worker.py:48-73 | a request made after a session was already ticked at the same time repeats the first request exactly |
| MeterWorker.RetriedTickAddsNothing | meter_worker/worker.py:21-73 | a tick retried at the same time requests nothing the first run did not, with the same idempotency keys |
| MeterWorker.OneRequestPerSession | meter_worker/worker.py:24-73 | a tick requests at most one release per session, and only for sessions it visits |
| MeterWorker.KeysIdentifyTick | meter_worker/worker.py:57-69 | batch keys of one session at different times differ, final keys likewise, and a final key never equals a batch key |
| MeterWorker.ElapsedExamples | meter_worker/worker.py:29-34 | 130 s gives 2 minutes, 59 s gives 0, a future start gives 0, and a zero start gives 0 |
| MeterWorker.Worker.constructor | meter_worker/worker.py:11-12 | the worker holds the threshold and the batch limit |
| MeterWorker.Worker.TickOne | meter_worker/worker.py:25-73 | one loop iteration: the session becomes `TickSession` of itself, the request is `RequestFor`, and events and payments are unchanged |
| MeterWorker.Worker.ProcessTick | meter_worker/worker.py:21-73 | after the loop every session is ticked and the requests are those of each session in listing order; events and payments are unchanged and the store invariant holds |
| PaymentsAgent.RStripSlashes | payments_agent/main.py:19-20 | the result is the longest prefix that does not end in `/`, and only slashes were removed |
| PaymentsAgent.FullUrl | payments_agent/main.py:58-61 | the URL is the base, one `/`, then the path without its leading slash |
| PaymentsAgent.FullUrlIgnoresLeadingSlash | payments_agent/main.py:58-61 | a path with or without a leading `/` gives the same URL |
| PaymentsAgent.Unwrap | payments_agent/main.py:71-74 | a non-null `data` member replaces the payload; anything else is passed through |
| PaymentsAgent.CentsToLovelace | payments_agent/main.py:81-83 | the string parses back to cents × 10 000, and is all digits exactly when the amount is non-negative |
| PaymentsAgent.ResultText | payments_agent/main.py:86-93 | the hashed text is printable ASCII, so its UTF-8 bytes are the text, and it reads back as exactly the four items `amount_cents`, `idempotency_key`, `payment_id`, `session_id` in sorted order |
| PaymentsAgent.ResultTextInjective | payments_agent/main.py:86-93 | two hashed texts are equal if and only if session, payment, amount and idempotency key are all equal, so two releases of the same amount under different keys hash different texts |
| PaymentsAgent.FetchStatus | payments_agent/main.py:97-120 | a status comes back if and only if the call answered below 400 with a JSON body, and it is that body unwrapped |
| PaymentsAgent.MarkState | payments_agent/main.py:123-131 | it raises exactly on a non-object status or an unhashable `onChainState`; otherwise it stores the status; the payment is funded if and only if it was already funded or the status reports a funded state; the session is activated if and only if the funding flips and the payment has a session |
| PaymentsAgent.FundedIsFinal | payments_agent/main.py:126 | once funded, a payment stays funded and never activates its session again |
| PaymentsAgent.Repoll | payments_agent/main.py:140-145 | a funded payment is left alone; a look never unfunds, never changes releases or the owning session, and activates only on the flip to funded |
| PaymentsAgent.Activate | payments_agent/main.py:128-130 | activation changes no session keys |
| PaymentsAgent.Looks | payments_agent/main.py:139-145 | one outcome per payment of the pass |
| PaymentsAgent.PolledPayments | payments_agent/main.py:138-145 | a pass keeps the payment keys |
| PaymentsAgent.PollSessions | payments_agent/main.py:138-145 | a pass keeps the session keys |
| PaymentsAgent.PolledPaymentsPointwise | payments_agent/main.py:139-145 | each payment a pass looked at is as its look left it, and the others are untouched |
| PaymentsAgent.PollKeepsFunded | payments_agent/main.py:139-145 | no poll pass clears a `funded` flag |
| PaymentsAgent.CreationResponse | payments_agent/main.py:208 | the response is the unwrapped body when that is truthy, otherwise `{}` |
| PaymentsAgent.EscrowId | payments_agent/main.py:209-211 | the id is a non-empty `blockchainIdentifier` string; a falsy one gives the fallback id when that is non-empty; a non-object response, a truthy non-string identifier or an empty fallback give no usable key |
| PaymentsAgent.CreationOf | payments_agent/main.py:191-211 | a raised or ≥400 creation call is 502 `masumi create failed`; a non-JSON answer below 400 is 500; otherwise the escrow is named by the unwrapped response's non-empty `blockchainIdentifier`, or by the fallback id when that identifier is falsy, with the response stored beside it; every other answer is 500 |
| PaymentsAgent.CreateAsWritten | payments_agent/main.py:154-176 | the handler as written never creates a payment: 400 without a session id, 404 for an unknown session, otherwise 500 |
| PaymentsAgent.CreateAsWrittenNeverCreates | payments_agent/main.py:176 | for an existing session and an escrow call that succeeds, the handler as written still answers 500 |
| PaymentsAgent.RecordedKeyReplays | payments_agent/main.py:265-268 | a release appended under a fresh key is the one a later replay of that key finds |
| PaymentsAgent.KeyIndex | payments_agent/main.py:265-268 | the first release recorded under the key, or absent if and only if no release has that key |
| PaymentsAgent.FindRelease | payments_agent/main.py:265-268 | the replay loop finds the release `KeyIndex` specifies |
| PaymentsAgent.TxHashOf | payments_agent/main.py:294 | the hash is `CurrentTransaction.txHash` of the result, null when either level is missing or the result is empty; a non-object result or a `CurrentTransaction` that is not an object raises |
| PaymentsAgent.SubmissionOf | payments_agent/main.py:273-294 | a raised or ≥400 submit call is 502 `masumi release failed`; a non-JSON answer below 400 is 500; a JSON answer below 400 settles exactly when the unwrapped result's `CurrentTransaction.txHash` can be read, with that hash and that result, and is 500 otherwise |
| PaymentsAgent.ApplyRelease | payments_agent/main.py:308-317 | released grows by exactly the amount, both percentages are those of the new balance, and nothing else changes |
| PaymentsAgent.Settle | payments_agent/main.py:308-319 | the transaction neither adds nor removes sessions; an absent session stays absent |
| PaymentsAgent.Agent.constructor | payments_agent/main.py:19-23 | the agent holds the base URL without trailing slashes, the network and the agent identifier |
| PaymentsAgent.Agent.ResultHash | payments_agent/main.py:86-94 | the result hash is 64 characters long, whatever the fields |
| PaymentsAgent.Agent.EscrowRequestFor | payments_agent/main.py:164-190 | funds are requested if and only if the escrow is positive, in lovelace that parse back to escrow × 10 000; the purchaser id is cut to 26 characters; the deadlines are increasing |
| PaymentsAgent.Agent.MarkPaymentState | payments_agent/main.py:123-131 | the store moves as `MarkState` says, and a raising status leaves the store unchanged |
| PaymentsAgent.Agent.Refresh | payments_agent/main.py:140-145 | the store moves as `Repoll` says; a funded payment or a failed look leaves the store unchanged |
| PaymentsAgent.Agent.PollOne | payments_agent/main.py:140-145 | one look moves the state from that of `i` looks to that of `i + 1`, or stops the pass on an exception |
| PaymentsAgent.Agent.PollPayments | payments_agent/main.py:134-148 | a pass handles payments in listing order until the first exception, and the store ends as the looks it made specify |
| PaymentsAgent.Agent.OpenEscrow | payments_agent/main.py:211-233 | a failed creation writes nothing; a created escrow adds the unfunded payment under its id and points the session at it as `awaiting_funding` |
| PaymentsAgent.Agent.CreatePayment | payments_agent/main.py:154-238 | 400 without a session id, 404 for an unknown one, and writes nothing; otherwise it sends `EscrowRequestFor` the session and then creates as `OpenEscrow`; every refusal leaves the store unchanged |
| PaymentsAgent.Agent.RecordRelease | payments_agent/main.py:296-319 | the release is appended, the result becomes the last status, and the session is settled by the amount; the store invariant holds |
| PaymentsAgent.Agent.ReleaseFunded | payments_agent/main.py:262-321 | unfunded is 409 with no change; a known key replays its transaction hash with no change and no submission; a new key submits the result hash and, on settlement, records exactly one release and books the amount; a transaction it answers with is the one recorded under the key |
| PaymentsAgent.Agent.Release | payments_agent/main.py:241-321 | missing fields are 400 and an unknown payment is 404, both with no change; an unfunded payment is re-polled first; otherwise as `ReleaseFunded`; a transaction it answers with is the one recorded under the key; idempotency keys stay distinct per payment |
| PaymentsAgent.Agent.ReleaseRetried | payments_agent/main.py:241-321 | a `release` retried with the same key after it answered with a transaction answers with the same transaction and writes nothing, so the amount is booked once |
| Pipeline.WholeMinutesAccrue | meter_worker/worker.py:29-46 | at 10 ¢/min, 130 s bills 20 ¢ and stamps the tick; 59 s bills nothing and stamps nothing |
| Pipeline.BatchesDrainTheBalance | meter_worker/worker.py:66-73 | with threshold 100 and limit 1000, an unpaid balance of 1500 gives a release of 1000; once booked, the next tick asks for 500 |
| Pipeline.FinalReleaseIsUncapped | meter_worker/worker.py:55-64 | an ending session owing 2200 gets one final release of 2200, past the batch limit; it is ended at the tick and asks for nothing afterwards |
| Pipeline.SettledSessionEndsQuietly | meter_worker/worker.py:55-64 | an ending session with nothing owed is ended without a release |

## Left out

- Network I/O, the Flask request layer, headers and the Masumi API key:
  each call the payments agent makes is an `HttpOutcome` parameter.
  `_masumi_headers` is not part of this model.
- MeterWorker.Worker.ProcessTick and MeterWorker.Worker.TickOne: the
  worker's `POST /release` and its answer are not modelled inside the
  tick. The tick returns the request it would post, and the agent's
  booking of it is a separate, later `PaymentsAgent.Agent.Release` call.
  In the source that POST is synchronous, so everything the agent writes
  while answering it lands before the worker's
  `update({'status': 'ended', ...})` (meter_worker/worker.py:63). Mostly
  the two write different fields: the tick writes `accrued_cents`,
  `last_tick_ts`, `status` and `end_ts`, and `tx_update` writes
  `released_cents` and the two percentages. The exception is a release
  against an unfunded payment. Its re-poll (payments_agent/main.py:257-261)
  can find the escrow funded, and `_mark_payment_state` then writes
  `status: 'active'` on the session (payments_agent/main.py:128-130). An
  example: `create_payment` was called twice, so the session points at a
  second, unfunded payment, and the vehicle has exited. In the source the
  worker's later write still leaves the session `ended`. In the model the
  release runs after the tick, so `PaymentsAgent.Activate` turns the ended
  session back to `active`, and the next tick bills it again. The model
  does not capture this interleaving: each service's handler is one atomic
  step on the store, and a handler never runs inside another.
- PaymentsAgent.FetchStatus: treats a body that is not JSON as "no
  status". This holds where the decoding error is a `RequestException`
  (requests 2.27 and later). With older versions of requests the error
  escapes, and in the poller it ends the pass.
- The daemon loops (`while True`, `time.sleep`, the poll interval), the
  poller's catch-all around a pass, threads and concurrent writers. The
  model describes one tick, one poll pass and one request at a time, each
  atomic against the store.
- The store's own semantics beyond a map per collection:
  - path validity;
  - push-key generation (releases are a sequence in push order);
  - absent fields read as `None`;
  - an `update` that creates a missing node.
- `_iso_in` and wall-clock deadlines. The escrow request carries the
  deadlines as minutes from now.
- Logging.
- `main()` of the signing helper (argument parsing, file reading, the POST
  and `print`).
- Nested objects and arrays inside scanner payloads. Payload values are
  scalars. Floating-point JSON numbers are not modelled.
- Strings holding a lone surrogate. Python's `json.loads` accepts
  `"\ud800"` and `compute_sig` escapes it back to `\ud800` and signs it.
  A Dafny `char` is a Unicode scalar value and cannot hold a surrogate, so
  such a payload cannot be represented, and the escape round trip is
  proved only for strings without lone surrogates.
- Python's `int()` on strings with whitespace or underscores. The model
  accepts only an optional sign followed by ASCII digits.
- Records.PercentFields: keeps the exact ratio and does not model
  `round(..., 2)`.
- Ingestor.IngestService.Screen: does not model the `sig compute failed`
  branch (400). Serialising a flat JSON object cannot raise.
- MeterWorker.TickSession: takes `rate_per_min_cents`, `accrued_cents` and
  `released_cents` as stored integers. It does not model the default rate
  of 10 for a session without one, or `int(...)` on a stored string.
  Sessions the ingestor creates always carry integer fields.
- PaymentsAgent.Agent.Refresh: does not model which identifier the resolve
  call queries (`blockchain_identifier or pid`). Under the store invariant
  both are the payment's key.
- `hmac.compare_digest`'s constant-time behaviour. Only its result is
  modelled.
- SHA-256 and HMAC: both are function-typed parameters returning 32 bytes.

## Findings

| source | as written | input that shows it | evidently intended | confidence | as-written member | corrected member |
|---|---|---|---|---|---|---|
| payments_agent/main.py:176 | `uuid.uuid4()` is called (here and at line 209) but `uuid` is never imported, so `create_payment` raises a NameError once the session is found | any `POST /create_payment` whose `session_id` names a stored session | a purchaser identifier and a fallback escrow identifier drawn at random, with the payment then created | not executed | PaymentsAgent.CreateAsWritten | PaymentsAgent.Agent.CreatePayment |
