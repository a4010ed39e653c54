/**
  The payments agent: opens a Masumi escrow for a session, watches it until
  it is funded, and releases funds against it idempotently.
 */
module PaymentsAgent {
  import opened Wrappers
  import opened Json
  import opened Records
  import opened Signature

  /** The escrow states in which the buyer's funds are locked or have been. */
  const FUNDED_STATES: set<string> := {
    "FundsLocked", "ResultSubmitted", "RefundRequested", "Disputed",
    "Withdrawn", "RefundWithdrawn", "DisputedWithdrawn"
  }

  /** The paths of the three Masumi calls; each is sent to
      `FullUrl(baseUrl, path)` for the agent's `baseUrl`. */
  const RESOLVE_PATH := "/payment/resolve-blockchain-identifier"
  const CREATE_PATH := "/payment/"
  const SUBMIT_PATH := "/payment/submit-result"

  /** What a call to the Masumi service gave back: an exception from the
      HTTP client, or an answer with a status code and a body that is JSON
      (`Some`) or not (`None`). */
  datatype HttpOutcome =
    | Raised
    | Answered(statusCode: int, body: Option<Json>)

  // ---------------------------------------------------------------------
  // Pure helpers
  // ---------------------------------------------------------------------

  /** `s.rstrip('/')` */
  function RStripSlashes(s: string): (r: string)
    ensures |r| <= |s| && r == s[..|r|]
    ensures r == [] || r[|r| - 1] != '/'
    ensures forall i :: |r| <= i < |s| ==> s[i] == '/'
  {
    if s != [] && s[|s| - 1] == '/' then RStripSlashes(s[..|s| - 1]) else s
  }

  predicate StartsWithSlash(path: string)
  {
    path != [] && path[0] == '/'
  }

  /** `_full_url(path)` under the base URL `base`. */
  function FullUrl(base: string, path: string): (r: string)
    ensures |r| > |base| && r[..|base|] == base && r[|base|] == '/'
    ensures r[|base| + 1..] == if StartsWithSlash(path) then path[1..] else path
  {
    var p := if StartsWithSlash(path) then path else "/" + path;
    base + p
  }

  /** A path with or without its leading slash names the same URL. */
  lemma FullUrlIgnoresLeadingSlash(base: string, path: string)
    requires !StartsWithSlash(path)
    ensures FullUrl(base, "/" + path) == FullUrl(base, path)
  {
    var a := FullUrl(base, "/" + path);
    var b := FullUrl(base, path);
    assert a == a[..|base| + 1] + a[|base| + 1..];
    assert b == b[..|base| + 1] + b[|base| + 1..];
  }

  /** `_unwrap_response`: the `data` member of an object that has a
      non-null one, otherwise the payload itself. */
  function Unwrap(payload: Json): (r: Json)
    ensures payload.Obj? && "data" in payload.fields && payload.fields["data"] != Null ==> r == payload.fields["data"]
    ensures !(payload.Obj? && "data" in payload.fields && payload.fields["data"] != Null) ==> r == payload
  {
    if payload.Obj? && "data" in payload.fields && payload.fields["data"] != Null then payload.fields["data"] else payload
  }

  /** `_cents_to_lovelace`: 10 000 lovelace per cent, as a decimal string. */
  function CentsToLovelace(cents: int): (r: string)
    ensures ParseInt(r) == Some(cents * 10000)
    ensures cents >= 0 <==> AllDigits(r)
  {
    DecimalRoundTrip(cents * 10000);
    Decimal(cents * 10000)
  }

  /** The items `_result_hash` serialises, in `sort_keys` order. */
  function ResultItems(sessionId: string, paymentId: string, amountCents: int, idempotencyKey: string): seq<(string, Scalar)>
  {
    [("amount_cents", Int(amountCents)), ("idempotency_key", Str(idempotencyKey)),
     ("payment_id", Str(paymentId)), ("session_id", Str(sessionId))]
  }

  /** The text `_result_hash` hashes: `json.dumps` with sorted keys and the
      default separators. It reads back as the four fields. */
  function ResultText(sessionId: string, paymentId: string, amountCents: int, idempotencyKey: string): (r: string)
    ensures IsPrintableAscii(r)
    ensures ParseObject(r, ", ", ": ") == Some(ResultItems(sessionId, paymentId, amountCents, idempotencyKey))
  {
    DefaultSeparatorsReadable();
    ParseEncodeObject(ResultItems(sessionId, paymentId, amountCents, idempotencyKey), ", ", ": ");
    EncodeObject(ResultItems(sessionId, paymentId, amountCents, idempotencyKey), ", ", ": ")
  }

  /** The hashed text determines all four fields: two releases that differ
      in session, payment, amount or idempotency key hash different texts. */
  lemma ResultTextInjective(s1: string, p1: string, a1: int, k1: string, s2: string, p2: string, a2: int, k2: string)
    ensures ResultText(s1, p1, a1, k1) == ResultText(s2, p2, a2, k2) <==> s1 == s2 && p1 == p2 && a1 == a2 && k1 == k2
  {
    if ResultText(s1, p1, a1, k1) == ResultText(s2, p2, a2, k2) {
      var f1, f2 := ResultItems(s1, p1, a1, k1), ResultItems(s2, p2, a2, k2);
      assert f1 == f2;
      assert f1[0].1 == f2[0].1 && f1[1].1 == f2[1].1 && f1[2].1 == f2[2].1 && f1[3].1 == f2[3].1;
    }
  }

  /** `_fetch_payment_status` given the answer of the resolve call: any
      failure is `None`. */
  function FetchStatus(answer: HttpOutcome): (r: Option<Json>)
    ensures r.Some? ==> answer.Answered? && answer.statusCode < 400 && answer.body.Some?
    ensures r.Some? ==> r.value == Unwrap(answer.body.value)
    ensures answer.Answered? && answer.statusCode < 400 && answer.body.Some? ==> r.Some?
  {
    match answer
    case Raised => None
    case Answered(code, body) => if code >= 400 || body.None? then None else Some(Unwrap(body.value))
  }

  // ---------------------------------------------------------------------
  // The funding flag
  // ---------------------------------------------------------------------

  /** What `_mark_payment_state` does to a payment: `Crashed` is the
      exception raised for a status that is not an object or whose
      `onChainState` cannot be hashed; `activates` says whether the owning
      session is set to `active`. */
  datatype MarkOutcome =
    | Crashed
    | Marked(payment: Payment, activates: bool)

  /** The status reports an on-chain state in which the funds are locked. */
  predicate ReportsFunded(status: Json)
  {
    status.Obj? && "onChainState" in status.fields && status.fields["onChainState"].Str?
    && status.fields["onChainState"].s in FUNDED_STATES
  }

  predicate Unhashable(j: Json)
  {
    j.Arr? || j.Obj?
  }

  function MarkState(record: Payment, status: Json): (r: MarkOutcome)
    ensures r.Crashed? <==> !status.Obj? || Unhashable(Lookup(status, "onChainState").value)
    ensures r.Marked? ==> r.payment.masumiLastStatus == Some(status)
    ensures r.Marked? ==> (r.payment.funded <==> record.funded || ReportsFunded(status))
    ensures r.Marked? ==> (r.activates <==> !record.funded && ReportsFunded(status) && record.sessionId != "")
    ensures r.Marked? ==> r.payment.(funded := record.funded, masumiLastStatus := record.masumiLastStatus) == record
  {
    match Lookup(status, "onChainState")
    case None => Crashed
    case Some(onChain) =>
      if Unhashable(onChain) then Crashed
      else
        var flips := onChain.Str? && onChain.s in FUNDED_STATES && !record.funded;
        var updated := record.(masumiLastStatus := Some(status));
        Marked(if flips then updated.(funded := true) else updated, flips && record.sessionId != "")
  }

  /** Once funded, a payment stays funded and never activates its session
      again, whatever later statuses report. */
  lemma FundedIsFinal(record: Payment, first: Json, later: Json)
    requires MarkState(record, first).Marked? && MarkState(record, first).payment.funded
    ensures var next := MarkState(MarkState(record, first).payment, later);
      next.Marked? ==> next.payment.funded && !next.activates
  {
  }

  /** One look at a payment, as the poller and `release` both make it: a
      funded payment is left alone; otherwise its status is fetched and,
      when that gives something truthy, marked. */
  function Repoll(p: Payment, answer: HttpOutcome): (r: MarkOutcome)
    ensures p.funded ==> r == Marked(p, false)
    ensures r.Marked? ==> p.funded ==> r.payment.funded
    ensures r.Marked? && r.activates ==> !p.funded && r.payment.funded
    ensures r.Marked? ==> r.payment.releases == p.releases && r.payment.sessionId == p.sessionId
  {
    if p.funded then Marked(p, false)
    else
      match FetchStatus(answer)
      case None => Marked(p, false)
      case Some(status) => if Truthy(status) then MarkState(p, status) else Marked(p, false)
  }

  /** The sessions after a look at payment `p` with outcome `outcome`. */
  function Activate(sessions: map<string, Session>, p: Payment, outcome: MarkOutcome): (r: map<string, Session>)
    ensures r.Keys == sessions.Keys
  {
    if outcome.Marked? && outcome.activates && p.sessionId in sessions then
      sessions[p.sessionId := sessions[p.sessionId].(status := Active)]
    else sessions
  }

  lemma UpdateTwice<K, V>(m: map<K, V>, k: K, a: V, b: V)
    ensures m[k := a][k := b] == m[k := b]
  {
  }

  /** The payments of a poll pass are all stored. */
  predicate Listed(payments: map<string, Payment>, order: seq<string>)
  {
    forall i :: 0 <= i < |order| ==> order[i] in payments
  }

  /** What the look at each payment of a poll pass would yield, were the
      pass to reach it: `answers[i]` is the reply the resolve call for
      `order[i]` gets. */
  function Looks(payments: map<string, Payment>, order: seq<string>, answers: seq<HttpOutcome>): (r: seq<MarkOutcome>)
    requires |order| == |answers| && Listed(payments, order)
    ensures |r| == |order|
  {
    if order == [] then []
    else [Repoll(payments[order[0]], answers[0])] + Looks(payments, order[1..], answers[1..])
  }

  /** The `i`-th look is the re-poll of the `i`-th payment with the `i`-th
      answer. */
  lemma {:induction false} LookAt(payments: map<string, Payment>, order: seq<string>, answers: seq<HttpOutcome>, i: nat)
    requires |order| == |answers| && Listed(payments, order) && i < |order|
    ensures Looks(payments, order, answers)[i] == Repoll(payments[order[i]], answers[i])
  {
    if i > 0 {
      LookAt(payments, order[1..], answers[1..], i - 1);
    }
  }

  /** The first `n` looks of a poll pass all end without an exception. */
  predicate PassCompletes(looks: seq<MarkOutcome>, n: nat)
    requires n <= |looks|
  {
    n == 0 || (PassCompletes(looks, n - 1) && looks[n - 1].Marked?)
  }

  /** The payments after the first `n` looks of a poll pass. */
  function PolledPayments(payments: map<string, Payment>, order: seq<string>, looks: seq<MarkOutcome>, n: nat)
    : (r: map<string, Payment>)
    requires n <= |order| == |looks| && Listed(payments, order)
    ensures r.Keys == payments.Keys
  {
    if n == 0 then payments
    else
      var prev := PolledPayments(payments, order, looks, n - 1);
      if looks[n - 1].Marked? then prev[order[n - 1] := looks[n - 1].payment] else prev
  }

  /** The sessions after the first `n` looks of a poll pass. */
  function PollSessions(sessions: map<string, Session>, payments: map<string, Payment>, order: seq<string>,
                        looks: seq<MarkOutcome>, n: nat): (r: map<string, Session>)
    requires n <= |order| == |looks| && Listed(payments, order)
    ensures r.Keys == sessions.Keys
  {
    if n == 0 then sessions
    else Activate(PollSessions(sessions, payments, order, looks, n - 1), payments[order[n - 1]], looks[n - 1])
  }

  /** A poll pass leaves each payment it has looked at as that look left
      it, and has not yet touched the others. */
  lemma {:induction false} PolledPaymentsPointwise(payments: map<string, Payment>, order: seq<string>,
                                                   looks: seq<MarkOutcome>, n: nat)
    requires n <= |order| == |looks| && Listed(payments, order)
    requires NoDuplicates(order)
    requires PassCompletes(looks, n)
    ensures forall i :: 0 <= i < n ==>
      looks[i].Marked? && PolledPayments(payments, order, looks, n)[order[i]] == looks[i].payment
    ensures forall i :: n <= i < |order| ==> PolledPayments(payments, order, looks, n)[order[i]] == payments[order[i]]
  {
    DistinctAll(order);
    if n > 0 {
      PolledPaymentsPointwise(payments, order, looks, n - 1);
    }
  }

  /** A poll pass has not yet touched the payments it has not looked at. */
  lemma {:induction false} PolledPaymentsUntouched(payments: map<string, Payment>, order: seq<string>,
                                                   looks: seq<MarkOutcome>, n: nat)
    requires n <= |order| == |looks| && Listed(payments, order)
    requires NoDuplicates(order)
    ensures forall i :: n <= i < |order| ==> PolledPayments(payments, order, looks, n)[order[i]] == payments[order[i]]
  {
    DistinctAll(order);
    if n > 0 {
      PolledPaymentsUntouched(payments, order, looks, n - 1);
    }
  }

  /** No poll pass ever clears a payment's `funded` flag. */
  lemma {:induction false} PollKeepsFunded(payments: map<string, Payment>, order: seq<string>,
                                           answers: seq<HttpOutcome>, n: nat)
    requires n <= |order| == |answers| && Listed(payments, order)
    requires NoDuplicates(order)
    ensures var polled := PolledPayments(payments, order, Looks(payments, order, answers), n);
      forall pid :: pid in payments && payments[pid].funded ==> polled[pid].funded
  {
    DistinctAll(order);
    if n > 0 {
      var looks := Looks(payments, order, answers);
      PollKeepsFunded(payments, order, answers, n - 1);
      PolledPaymentsUntouched(payments, order, looks, n - 1);
      LookAt(payments, order, answers, n - 1);
    }
  }

  // ---------------------------------------------------------------------
  // Escrow creation
  // ---------------------------------------------------------------------

  datatype Funds = Funds(amount: string, unit: string)

  /** The body of the escrow-creation call. Deadlines are minutes from now. */
  datatype EscrowRequest = EscrowRequest(
    inputHash: string,
    network: string,
    agentIdentifier: string,
    identifierFromPurchaser: string,
    payByMinutes: int,
    submitResultMinutes: int,
    unlockMinutes: int,
    externalDisputeUnlockMinutes: int,
    metadata: string,
    requestedFunds: Option<Funds>)

  datatype Creation =
    | CreateFailed(code: int, error: string)
    | Escrowed(id: string, response: Json)

  /** `_unwrap_response(resp.json()) or {}` */
  function CreationResponse(body: Json): (r: Json)
    ensures Truthy(Unwrap(body)) ==> r == Unwrap(body)
    ensures !Truthy(Unwrap(body)) ==> r == Obj(map[])
  {
    var r := Unwrap(body);
    if Truthy(r) then r else Obj(map[])
  }

  /** `masumi_response.get('blockchainIdentifier') or fallback`, as a store
      key: `None` when the response is not an object or the identifier is
      not a non-empty string, which the store refuses as a path. */
  function EscrowId(response: Json, fallbackId: string): (r: Option<string>)
    ensures r.Some? ==> r.value != ""
    ensures !response.Obj? ==> r.None?
    ensures response.Obj? ==>
      var v := if "blockchainIdentifier" in response.fields then response.fields["blockchainIdentifier"] else Null;
      && (v.Str? && v.s != "" ==> r == Some(v.s))
      && (!Truthy(v) ==> r == if fallbackId != "" then Some(fallbackId) else None)
      && (Truthy(v) && !v.Str? ==> r.None?)
  {
    match Lookup(response, "blockchainIdentifier")
    case None => None
    case Some(v) =>
      if !Truthy(v) then (if fallbackId != "" then Some(fallbackId) else None)
      else if v.Str? then Some(v.s)
      else None
  }

  /** What the escrow-creation call leads to. */
  function CreationOf(answer: HttpOutcome, fallbackId: string): (r: Creation)
    ensures r.Escrowed? ==> r.id != ""
    ensures answer.Raised? || (answer.Answered? && answer.statusCode >= 400) ==> r == CreateFailed(502, "masumi create failed")
    ensures r.CreateFailed? ==> r.code in {500, 502}
    ensures answer.Answered? && answer.statusCode < 400 && answer.body.None? ==> r == CreateFailed(500, "internal error")
    ensures answer.Answered? && answer.statusCode < 400 && answer.body.Some? ==>
      var response := CreationResponse(answer.body.value);
      var named := Lookup(response, "blockchainIdentifier");
      && (named.Some? && named.value.Str? && named.value.s != "" ==> r == Escrowed(named.value.s, response))
      && (named.Some? && !Truthy(named.value) && fallbackId != "" ==> r == Escrowed(fallbackId, response))
      && (named.None? || (Truthy(named.value) && !named.value.Str?) || (!Truthy(named.value) && fallbackId == "") ==>
            r == CreateFailed(500, "internal error"))
  {
    match answer
    case Raised => CreateFailed(502, "masumi create failed")
    case Answered(code, body) =>
      if code >= 400 then CreateFailed(502, "masumi create failed")
      else if body.None? then CreateFailed(500, "internal error")
      else
        var response := CreationResponse(body.value);
        match EscrowId(response, fallbackId)
        case None => CreateFailed(500, "internal error")
        case Some(id) => Escrowed(id, response)
  }

  /** `create_payment` as the file stands. `uuid` is used but never
      imported, so building the escrow-creation body raises a NameError as
      soon as the session is found: the request ends in a 500 before the
      escrow-creation call and before any write. */
  function CreateAsWritten(sessions: map<string, Session>, sessionId: string): (r: CreateReply)
    ensures r.CreateRefused?
    ensures r.code == 400 <==> sessionId == ""
    ensures r.code == 404 <==> sessionId != "" && sessionId !in sessions
  {
    if sessionId == "" then CreateRefused(400, "missing session_id")
    else if sessionId !in sessions then CreateRefused(404, "session not found")
    else CreateRefused(500, "internal error")
  }

  /** The discrepancy: for a session that exists and an escrow-creation
      call that names its escrow, the handler as written still answers
      500, while `CreatePayment`, which has the identifiers it needs,
      records the payment under that name. */
  lemma CreateAsWrittenNeverCreates(sessions: map<string, Session>, sessionId: string, fallbackId: string)
    requires sessionId != "" && sessionId in sessions
    ensures CreateAsWritten(sessions, sessionId) == CreateRefused(500, "internal error")
    ensures var named := Obj(map["blockchainIdentifier" := Str("pay-1")]);
      CreationOf(Answered(201, Some(named)), fallbackId) == Escrowed("pay-1", named)
  {
    var named := Obj(map["blockchainIdentifier" := Str("pay-1")]);
    assert "data" !in named.fields;
    assert Truthy(Str("pay-1"));
  }

  /** The payment record `create_payment` writes. */
  function NewPayment(id: string, sessionId: string, response: Json, now: int): Payment
  {
    Payment(id, sessionId, id, response, false, [], now, None)
  }

  // ---------------------------------------------------------------------
  // Release
  // ---------------------------------------------------------------------

  /** The body of the submit-result call. */
  datatype SubmitRequest = SubmitRequest(network: string, blockchainIdentifier: string, submitResultHash: string)

  datatype Submission =
    | SubmitFailed(code: int, error: string)
    | Settled(txHash: Json, result: Json)

  /** The position of the first release recorded under `key`. */
  function KeyIndex(rs: seq<ReleaseRecord>, key: string): (r: Option<nat>)
    ensures r.Some? ==> r.value < |rs| && rs[r.value].idempotencyKey == key
    ensures r.Some? ==> forall j :: 0 <= j < r.value ==> rs[j].idempotencyKey != key
    ensures r.None? <==> forall j :: 0 <= j < |rs| ==> rs[j].idempotencyKey != key
  {
    if rs == [] then None
    else if rs[0].idempotencyKey == key then Some(0)
    else
      var r := KeyIndex(rs[1..], key);
      if r.Some? then Some(r.value + 1) else None
  }

  /** The replay scan of `release`: the releases in order, stopping at the
      first one recorded under `key`. */
  method FindRelease(rs: seq<ReleaseRecord>, key: string) returns (found: Option<nat>)
    ensures found == KeyIndex(rs, key)
  {
    var i := 0;
    while i < |rs|
      invariant 0 <= i <= |rs|
      invariant forall j :: 0 <= j < i ==> rs[j].idempotencyKey != key
    {
      if rs[i].idempotencyKey == key {
        return Some(i);
      }
      i := i + 1;
    }
    return None;
  }

  /** A release appended under a key no earlier release used is the one a
      later replay of that key finds. */
  lemma {:induction false} RecordedKeyReplays(rs: seq<ReleaseRecord>, rel: ReleaseRecord)
    requires KeyIndex(rs, rel.idempotencyKey).None?
    ensures KeyIndex(rs + [rel], rel.idempotencyKey) == Some(|rs|)
  {
    if rs != [] {
      assert (rs + [rel])[1..] == rs[1..] + [rel];
      RecordedKeyReplays(rs[1..], rel);
    }
  }

  /** `(result_payload or {}).get('CurrentTransaction', {}).get('txHash')`;
      `None` is the AttributeError raised when either level is not an object. */
  function TxHashOf(result: Json): (r: Option<Json>)
    ensures !Truthy(result) ==> r == Some(Null)
    ensures Truthy(result) && !result.Obj? ==> r.None?
    ensures result.Obj? && "CurrentTransaction" !in result.fields ==> r == Some(Null)
    ensures result.Obj? && "CurrentTransaction" in result.fields ==>
      var current := result.fields["CurrentTransaction"];
      && (!current.Obj? ==> r.None?)
      && (current.Obj? && "txHash" in current.fields ==> r == Some(current.fields["txHash"]))
      && (current.Obj? && "txHash" !in current.fields ==> r == Some(Null))
  {
    var base := if Truthy(result) then result else Obj(map[]);
    match base
    case Obj(m) =>
      var current := if "CurrentTransaction" in m then m["CurrentTransaction"] else Obj(map[]);
      Lookup(current, "txHash")
    case _ => None
  }

  /** What the submit-result call leads to. */
  function SubmissionOf(answer: HttpOutcome): (r: Submission)
    ensures answer.Raised? || (answer.Answered? && answer.statusCode >= 400) ==> r == SubmitFailed(502, "masumi release failed")
    ensures r.Settled? ==> answer.Answered? && answer.statusCode < 400 && answer.body.Some?
    ensures r.Settled? ==> r.result == Unwrap(answer.body.value) && TxHashOf(r.result) == Some(r.txHash)
    ensures answer.Answered? && answer.statusCode < 400 && answer.body.None? ==> r == SubmitFailed(500, "internal error")
    ensures answer.Answered? && answer.statusCode < 400 && answer.body.Some? ==>
      var tx := TxHashOf(Unwrap(answer.body.value));
      && (tx.Some? ==> r == Settled(tx.value, Unwrap(answer.body.value)))
      && (tx.None? ==> r == SubmitFailed(500, "internal error"))
  {
    match answer
    case Raised => SubmitFailed(502, "masumi release failed")
    case Answered(code, body) =>
      if code >= 400 then SubmitFailed(502, "masumi release failed")
      else if body.None? then SubmitFailed(500, "internal error")
      else
        var result := Unwrap(body.value);
        match TxHashOf(result)
        case None => SubmitFailed(500, "internal error")
        case Some(tx) => Settled(tx, result)
  }

  /** `tx_update`: add the released amount and recompute both percentages. */
  function ApplyRelease(s: Session, amountCents: int): (r: Session)
    ensures r.releasedCents == s.releasedCents + amountCents
    ensures (r.percentEscrowUsed, r.percentPaidOfAccrued) == PercentFields(r)
    ensures r.(releasedCents := s.releasedCents, percentEscrowUsed := s.percentEscrowUsed,
               percentPaidOfAccrued := s.percentPaidOfAccrued) == s
  {
    var bumped := s.(releasedCents := s.releasedCents + amountCents);
    var pct := PercentFields(bumped);
    bumped.(percentEscrowUsed := pct.0, percentPaidOfAccrued := pct.1)
  }

  /** The session map after `tx_update` on `sid`: an absent session stays absent. */
  function Settle(sessions: map<string, Session>, sid: string, amountCents: int): (r: map<string, Session>)
    ensures r.Keys == sessions.Keys
  {
    if sid in sessions then sessions[sid := ApplyRelease(sessions[sid], amountCents)] else sessions
  }

  /** The request fields `release` insists on. */
  predicate MissingFields(paymentId: string, sessionId: string, amountCents: int, idempotencyKey: string)
  {
    paymentId == "" || sessionId == "" || amountCents <= 0 || idempotencyKey == ""
  }

  /** Payment `pid` is funded and its release under `key` carries `tx`:
      what a replay of `key` answers with. */
  predicate Recorded(payments: map<string, Payment>, pid: string, key: string, tx: Json)
  {
    && pid in payments && payments[pid].funded
    && KeyIndex(payments[pid].releases, key).Some?
    && payments[pid].releases[KeyIndex(payments[pid].releases, key).value].txHash == tx
  }

  datatype CreateReply =
    | PaymentCreated(paymentId: string)
    | CreateRefused(code: int, error: string)

  datatype ReleaseReply =
    | Released(txHash: Json)
    | ReleaseRefused(code: int, error: string)

  class Agent {
    const store: Store
    /** SHA-256 of the UTF-8 encoding of a text. */
    const sha: string -> Digest
    /** `MASUMI_API_BASE_URL` without trailing slashes. */
    const baseUrl: string
    const network: string
    const agentIdentifier: string

    constructor (store: Store, sha: string -> Digest, configuredUrl: string, network: string, agentIdentifier: string)
      ensures this.store == store && this.sha == sha && this.baseUrl == RStripSlashes(configuredUrl)
      ensures this.network == network && this.agentIdentifier == agentIdentifier
    {
      this.store := store;
      this.sha := sha;
      this.baseUrl := RStripSlashes(configuredUrl);
      this.network := network;
      this.agentIdentifier := agentIdentifier;
    }

    /** `_result_hash` */
    function ResultHash(sessionId: string, paymentId: string, amountCents: int, idempotencyKey: string): (r: string)
      ensures |r| == 64
    {
      HexDigest(sha(ResultText(sessionId, paymentId, amountCents, idempotencyKey)))
    }

    /** The escrow-creation body `create_payment` sends for session `sid`;
        `purchaserId` is the random hex string it truncates. */
    function EscrowRequestFor(sid: string, s: Session, purchaserId: string): (r: EscrowRequest)
      ensures r.requestedFunds.Some? <==> s.escrowDepositCents > 0
      ensures r.requestedFunds.Some? ==>
        && r.requestedFunds.value.unit == "lovelace"
        && ParseInt(r.requestedFunds.value.amount) == Some(s.escrowDepositCents * 10000)
      ensures r.identifierFromPurchaser == purchaserId[..if |purchaserId| < 26 then |purchaserId| else 26]
      ensures 0 < r.payByMinutes < r.submitResultMinutes < r.unlockMinutes < r.externalDisputeUnlockMinutes
      ensures r.network == network && r.agentIdentifier == agentIdentifier
    {
      var escrow := s.escrowDepositCents;
      EscrowRequest(
        inputHash := HexDigest(sha(sid)),
        network := network,
        agentIdentifier := agentIdentifier,
        identifierFromPurchaser := purchaserId[..if |purchaserId| < 26 then |purchaserId| else 26],
        payByMinutes := 30,
        submitResultMinutes := 480,
        unlockMinutes := 720,
        externalDisputeUnlockMinutes := 1440,
        metadata := EncodeObject([("session_id", Str(sid)), ("vehicle_id", s.vehicleId), ("slot_id", s.slotId)], ",", ":"),
        requestedFunds := if escrow > 0 then Some(Funds(CentsToLovelace(escrow), "lovelace")) else None)
    }

    /** `_mark_payment_state(pid, record, status)` with the stored record. */
    method MarkPaymentState(pid: string, status: Json) returns (ok: bool)
      requires store.Valid() && pid in store.payments
      modifies store
      ensures store.Valid()
      ensures store.events == old(store.events)
      ensures var outcome := MarkState(old(store.payments)[pid], status);
        && ok == outcome.Marked?
        && (outcome.Crashed? ==> store.payments == old(store.payments))
        && (outcome.Marked? ==> store.payments == old(store.payments)[pid := outcome.payment])
        && store.sessions == Activate(old(store.sessions), old(store.payments)[pid], outcome)
      ensures !ok ==> unchanged(store)
    {
      var record := store.payments[pid];
      if !status.Obj? {
        return false;
      }
      var onChain := if "onChainState" in status.fields then status.fields["onChainState"] else Null;
      if onChain.Arr? || onChain.Obj? {
        return false;
      }
      var updated := record.(masumiLastStatus := Some(status));
      if onChain.Str? && onChain.s in FUNDED_STATES && !record.funded {
        updated := updated.(funded := true);
        var sid := record.sessionId;
        if sid != "" && sid in store.sessions {
          store.sessions := store.sessions[sid := store.sessions[sid].(status := Active)];
        }
      }
      store.payments := store.payments[pid := updated];
      return true;
    }

    /** One look at payment `pid`: fetch its status when it is not funded
        and mark it when the status is truthy. `answer` is what the resolve
        call to `FullUrl(baseUrl, RESOLVE_PATH)` gave back. */
    method Refresh(pid: string, answer: HttpOutcome) returns (ok: bool)
      requires store.Valid() && pid in store.payments
      modifies store
      ensures store.Valid()
      ensures store.events == old(store.events)
      ensures var outcome := Repoll(old(store.payments)[pid], answer);
        && ok == outcome.Marked?
        && (outcome.Crashed? ==> store.payments == old(store.payments))
        && (outcome.Marked? ==> store.payments == old(store.payments)[pid := outcome.payment])
        && store.sessions == Activate(old(store.sessions), old(store.payments)[pid], outcome)
      ensures !ok || old(store.payments)[pid].funded ==> unchanged(store)
    {
      var record := store.payments[pid];
      if record.funded {
        return true;
      }
      var status := FetchStatus(answer);
      if status.Some? && Truthy(status.value) {
        ok := MarkPaymentState(pid, status.value);
      } else {
        ok := true;
      }
    }

    /** The `i`-th look of a poll pass, from the state the first `i` looks
        left behind to the state the first `i + 1` leave behind. */
    method PollOne(order: seq<string>, answers: seq<HttpOutcome>, i: nat,
                   ghost payments: map<string, Payment>, ghost sessions: map<string, Session>)
      returns (ok: bool)
      requires i < |order| == |answers| && Listed(payments, order)
      requires NoDuplicates(order)
      requires store.Valid()
      requires store.payments == PolledPayments(payments, order, Looks(payments, order, answers), i)
      requires store.sessions == PollSessions(sessions, payments, order, Looks(payments, order, answers), i)
      modifies store
      ensures store.Valid()
      ensures store.events == old(store.events)
      ensures var looks := Looks(payments, order, answers);
        && ok == looks[i].Marked?
        && (!ok ==> store.payments == old(store.payments) && store.sessions == old(store.sessions))
        && (ok ==> store.payments == PolledPayments(payments, order, looks, i + 1))
        && (ok ==> store.sessions == PollSessions(sessions, payments, order, looks, i + 1))
    {
      PolledPaymentsUntouched(payments, order, Looks(payments, order, answers), i);
      LookAt(payments, order, answers, i);
      ok := Refresh(order[i], answers[i]);
    }

    /** One pass of the poller over the payments in `order`; `answers[i]`
        is what the resolve call for `order[i]` gave back. An exception
        ends the pass: `visited` is the number of payments handled before
        it, `|order|` when there was none. */
    method PollPayments(order: seq<string>, answers: seq<HttpOutcome>) returns (visited: nat)
      requires store.Valid()
      requires Enumerates(order, store.payments.Keys)
      requires |answers| == |order|
      modifies store
      ensures store.Valid()
      ensures store.events == old(store.events)
      ensures visited <= |order|
      ensures Listed(old(store.payments), order)
      ensures var looks := Looks(old(store.payments), order, answers);
        && PassCompletes(looks, visited)
        && (visited < |order| ==> looks[visited].Crashed?)
        && store.payments == PolledPayments(old(store.payments), order, looks, visited)
        && store.sessions == PollSessions(old(store.sessions), old(store.payments), order, looks, visited)
    {
      ghost var payments, sessions := store.payments, store.sessions;
      ghost var looks := Looks(payments, order, answers);
      var i := 0;
      while i < |order|
        invariant 0 <= i <= |order|
        invariant store.Valid()
        invariant store.events == old(store.events)
        invariant PassCompletes(looks, i)
        invariant store.payments == PolledPayments(payments, order, looks, i)
        invariant store.sessions == PollSessions(sessions, payments, order, looks, i)
      {
        var ok := PollOne(order, answers, i, payments, sessions);
        if !ok {
          return i;
        }
        i := i + 1;
      }
      return |order|;
    }

    /** The writes of a successful `create_payment`: the new payment under
        the escrow's identifier, and the session pointed at it. */
    method OpenEscrow(sessionId: string, creation: Creation, now: int) returns (reply: CreateReply)
      requires store.Valid() && sessionId in store.sessions && sessionId != ""
      modifies store
      ensures store.Valid()
      ensures store.events == old(store.events)
      ensures creation.CreateFailed? ==> reply == CreateRefused(creation.code, creation.error) && unchanged(store)
      ensures creation.Escrowed? ==>
        && reply == PaymentCreated(creation.id)
        && store.payments == old(store.payments)[creation.id := NewPayment(creation.id, sessionId, creation.response, now)]
        && store.sessions == old(store.sessions)[sessionId := old(store.sessions)[sessionId].(
             paymentId := Some(creation.id), status := AwaitingFunding,
             masumi := Some(MasumiLink(creation.id, network, agentIdentifier)))]
    {
      if creation.CreateFailed? {
        return CreateRefused(creation.code, creation.error);
      }
      var id := creation.id;
      store.payments := store.payments[id := NewPayment(id, sessionId, creation.response, now)];
      store.sessions := store.sessions[sessionId := store.sessions[sessionId].(
        paymentId := Some(id), status := AwaitingFunding, masumi := Some(MasumiLink(id, network, agentIdentifier)))];
      reply := PaymentCreated(id);
    }

    /** `create_payment` for `sessionId`. `purchaserId` and `fallbackId`
        stand for the two random hex identifiers it draws, `answer` for
        what the escrow-creation call to `FullUrl(baseUrl, CREATE_PATH)`
        gave back; `sent` is the body sent. */
    method CreatePayment(sessionId: string, purchaserId: string, fallbackId: string, answer: HttpOutcome, now: int)
      returns (reply: CreateReply, sent: Option<EscrowRequest>)
      requires store.Valid()
      modifies store
      ensures store.Valid()
      ensures store.events == old(store.events)
      ensures sessionId == "" ==> reply == CreateRefused(400, "missing session_id") && sent.None?
      ensures sessionId != "" && sessionId !in old(store.sessions) ==>
        reply == CreateRefused(404, "session not found") && sent.None?
      ensures sessionId != "" && sessionId in old(store.sessions) ==>
        && sent == Some(EscrowRequestFor(sessionId, old(store.sessions)[sessionId], purchaserId))
        && var creation := CreationOf(answer, fallbackId);
          && (creation.CreateFailed? ==> reply == CreateRefused(creation.code, creation.error))
          && (creation.Escrowed? ==>
                && reply == PaymentCreated(creation.id)
                && store.payments == old(store.payments)[creation.id := NewPayment(creation.id, sessionId, creation.response, now)]
                && store.sessions == old(store.sessions)[sessionId := old(store.sessions)[sessionId].(
                     paymentId := Some(creation.id), status := AwaitingFunding,
                     masumi := Some(MasumiLink(creation.id, network, agentIdentifier)))])
      ensures reply.CreateRefused? ==> unchanged(store)
    {
      if sessionId == "" {
        return CreateRefused(400, "missing session_id"), None;
      }
      if sessionId !in store.sessions {
        return CreateRefused(404, "session not found"), None;
      }
      sent := Some(EscrowRequestFor(sessionId, store.sessions[sessionId], purchaserId));
      reply := OpenEscrow(sessionId, CreationOf(answer, fallbackId), now);
    }

    /** Append `rel` to payment `pid`, store `result` as its last status,
        and apply `tx_update` to session `sid`. */
    method RecordRelease(pid: string, sid: string, rel: ReleaseRecord, result: Json)
      requires store.Valid() && pid in store.payments
      requires store.payments[pid].funded
      requires KeyIndex(store.payments[pid].releases, rel.idempotencyKey).None?
      modifies store
      ensures store.Valid()
      ensures store.events == old(store.events)
      ensures store.payments == old(store.payments)[pid := old(store.payments)[pid].(
        releases := old(store.payments)[pid].releases + [rel], masumiLastStatus := Some(result))]
      ensures store.sessions == Settle(old(store.sessions), sid, rel.amountCents)
    {
      var pay := store.payments[pid];
      store.payments := store.payments[pid := pay.(releases := pay.releases + [rel], masumiLastStatus := Some(result))];
      store.sessions := Settle(store.sessions, sid, rel.amountCents);
    }

    /** What `release` does once the payment record has been re-read:
        refuse an unfunded payment, replay a recorded release, or submit
        the result and record the release. `submitAnswer` is what the
        submit-result call to `FullUrl(baseUrl, SUBMIT_PATH)` gave back. */
    method ReleaseFunded(paymentId: string, amountCents: int, sessionId: string, idempotencyKey: string,
                         submitAnswer: HttpOutcome, now: int)
      returns (reply: ReleaseReply, submitted: Option<SubmitRequest>)
      requires store.Valid() && paymentId in store.payments
      modifies store
      ensures store.Valid()
      ensures store.events == old(store.events)
      ensures reply.Released? ==> Recorded(store.payments, paymentId, idempotencyKey, reply.txHash)
      ensures var pay := old(store.payments)[paymentId];
        && (!pay.funded ==> reply == ReleaseRefused(409, "payment not funded yet") && submitted.None? && unchanged(store))
        && (pay.funded && KeyIndex(pay.releases, idempotencyKey).Some? ==>
              && reply == Released(pay.releases[KeyIndex(pay.releases, idempotencyKey).value].txHash)
              && submitted.None? && unchanged(store))
        && (pay.funded && KeyIndex(pay.releases, idempotencyKey).None? ==>
              var hash := ResultHash(sessionId, paymentId, amountCents, idempotencyKey);
              && submitted == Some(SubmitRequest(network, paymentId, hash))
              && match SubmissionOf(submitAnswer)
                 case SubmitFailed(code, error) => reply == ReleaseRefused(code, error) && unchanged(store)
                 case Settled(tx, result) =>
                   && reply == Released(tx)
                   && store.payments == old(store.payments)[paymentId := pay.(
                        releases := pay.releases + [ReleaseRecord(amountCents, tx, now, idempotencyKey, hash, result)],
                        masumiLastStatus := Some(result))]
                   && store.sessions == Settle(old(store.sessions), sessionId, amountCents))
    {
      var pay := store.payments[paymentId];
      if !pay.funded {
        return ReleaseRefused(409, "payment not funded yet"), None;
      }
      var found := FindRelease(pay.releases, idempotencyKey);
      if found.Some? {
        return Released(pay.releases[found.value].txHash), None;
      }
      var blockchainId := if pay.blockchainIdentifier != "" then pay.blockchainIdentifier else paymentId;
      var hash := ResultHash(sessionId, blockchainId, amountCents, idempotencyKey);
      submitted := Some(SubmitRequest(network, blockchainId, hash));
      var submission := SubmissionOf(submitAnswer);
      if submission.SubmitFailed? {
        return ReleaseRefused(submission.code, submission.error), submitted;
      }
      var rel := ReleaseRecord(amountCents, submission.txHash, now, idempotencyKey, hash, submission.result);
      RecordedKeyReplays(pay.releases, rel);
      RecordRelease(paymentId, sessionId, rel, submission.result);
      reply := Released(submission.txHash);
    }

    /** `release`. `statusAnswer` is what the resolve call to
        `FullUrl(baseUrl, RESOLVE_PATH)` gives back if the payment has to be
        re-polled, `submitAnswer` what the submit-result call to
        `FullUrl(baseUrl, SUBMIT_PATH)` gives back; `submitted` is the
        submit-result body, if sent. */
    method Release(paymentId: string, amountCents: int, sessionId: string, idempotencyKey: string,
                   statusAnswer: HttpOutcome, submitAnswer: HttpOutcome, now: int)
      returns (reply: ReleaseReply, submitted: Option<SubmitRequest>)
      requires store.Valid()
      modifies store
      ensures store.Valid()
      ensures store.events == old(store.events)
      ensures reply.Released? ==> Recorded(store.payments, paymentId, idempotencyKey, reply.txHash)
      ensures MissingFields(paymentId, sessionId, amountCents, idempotencyKey) ==>
        reply == ReleaseRefused(400, "missing fields") && submitted.None? && unchanged(store)
      ensures !MissingFields(paymentId, sessionId, amountCents, idempotencyKey) && paymentId !in old(store.payments) ==>
        reply == ReleaseRefused(404, "payment not found") && submitted.None? && unchanged(store)
      ensures !MissingFields(paymentId, sessionId, amountCents, idempotencyKey) && paymentId in old(store.payments) ==>
        var before := old(store.payments)[paymentId];
        var look := Repoll(before, statusAnswer);
        && (look.Crashed? ==> reply == ReleaseRefused(500, "internal error") && submitted.None? && unchanged(store))
        && (look.Marked? && !look.payment.funded ==>
              && reply == ReleaseRefused(409, "payment not funded yet") && submitted.None?
              && store.payments == old(store.payments)[paymentId := look.payment]
              && store.sessions == old(store.sessions))
        && (look.Marked? && look.payment.funded && KeyIndex(look.payment.releases, idempotencyKey).Some? ==>
              && reply == Released(look.payment.releases[KeyIndex(look.payment.releases, idempotencyKey).value].txHash)
              && submitted.None? && unchanged(store))
        && (look.Marked? && look.payment.funded && KeyIndex(look.payment.releases, idempotencyKey).None? ==>
              var hash := ResultHash(sessionId, paymentId, amountCents, idempotencyKey);
              var afterLook := Activate(old(store.sessions), before, look);
              && submitted == Some(SubmitRequest(network, paymentId, hash))
              && match SubmissionOf(submitAnswer)
                 case SubmitFailed(code, error) =>
                   && reply == ReleaseRefused(code, error)
                   && store.payments == old(store.payments)[paymentId := look.payment]
                   && store.sessions == afterLook
                 case Settled(tx, result) =>
                   && reply == Released(tx)
                   && store.payments == old(store.payments)[paymentId := look.payment.(
                        releases := look.payment.releases + [ReleaseRecord(amountCents, tx, now, idempotencyKey, hash, result)],
                        masumiLastStatus := Some(result))]
                   && store.sessions == Settle(afterLook, sessionId, amountCents))
    {
      if MissingFields(paymentId, sessionId, amountCents, idempotencyKey) {
        return ReleaseRefused(400, "missing fields"), None;
      }
      if paymentId !in store.payments {
        return ReleaseRefused(404, "payment not found"), None;
      }
      var ok := Refresh(paymentId, statusAnswer);
      if !ok {
        return ReleaseRefused(500, "internal error"), None;
      }
      ghost var polled := store.payments;
      reply, submitted := ReleaseFunded(paymentId, amountCents, sessionId, idempotencyKey, submitAnswer, now);
      UpdateTwice(old(store.payments), paymentId, polled[paymentId], store.payments[paymentId]);
    }

    /** `release` called twice with the same fields and key, as a retried
        worker request does: once the first call has answered with a
        transaction, the second answers with the same one and writes
        nothing, so the amount is booked once. `mid` is the store between
        the two calls. */
    method ReleaseRetried(paymentId: string, amountCents: int, sessionId: string, idempotencyKey: string,
                          statusAnswer: HttpOutcome, submitAnswer: HttpOutcome, now: int,
                          retryStatus: HttpOutcome, retrySubmit: HttpOutcome, later: int)
      returns (first: ReleaseReply, second: ReleaseReply,
               ghost midPayments: map<string, Payment>, ghost midSessions: map<string, Session>)
      requires store.Valid()
      modifies store
      ensures store.Valid()
      ensures first.Released? ==>
        && second == first
        && store.payments == midPayments && store.sessions == midSessions
        && Recorded(store.payments, paymentId, idempotencyKey, first.txHash)
    {
      var submitted;
      first, submitted := Release(paymentId, amountCents, sessionId, idempotencyKey, statusAnswer, submitAnswer, now);
      midPayments, midSessions := store.payments, store.sessions;
      second, submitted := Release(paymentId, amountCents, sessionId, idempotencyKey, retryStatus, retrySubmit, later);
    }
  }
}
