/**
  The ingestor's `/ingest/scan` endpoint: authenticate a scanner event,
  record it, and open or close a parking session.
 */
module Ingestor {
  import opened Wrappers
  import opened Json
  import opened Canonical
  import opened Records
  import opened Signature

  datatype ScanReply =
    | Created(sessionId: string)    // 201
    | Closed(sessionId: string)     // 200: the session is now `ending`
    | Refused(code: int, error: string)

  /** What the checks before the first write decide. */
  datatype Gate =
    | Rejected(code: int, error: string)
    | Admitted(event: Event, numbers: Admission)

  /** The integers an admitted event carries, after `int(...)`. */
  datatype Admission = Admission(rate: int, escrow: int, ts: int)

  const INTERNAL_ERROR := "internal error"

  predicate IsAscii(s: string)
  {
    forall i :: 0 <= i < |s| ==> s[i] as int < 128
  }

  /** `payload.get(key)` */
  function ItemOf(p: Payload, key: string): Scalar
  {
    Get(p, key).GetOr(Null)
  }

  /** `payload.get('sig', '')` */
  function SentSig(p: Payload): Scalar
  {
    Get(p, SIG_KEY).GetOr(Str(""))
  }

  /** `hmac.compare_digest(expected, sent)` for an ASCII `expected`: `None`
      is the TypeError raised for a non-string or a non-ASCII string. */
  function CompareDigest(expected: string, sent: Scalar): (r: Option<bool>)
    requires IsAscii(expected)
    ensures r.None? <==> !(sent.Str? && IsAscii(sent.s))
    ensures r == Some(true) <==> sent == Str(expected)
  {
    if sent.Str? && IsAscii(sent.s) then Some(sent.s == expected) else None
  }

  /** `int(payload.get(key, default))` */
  function ReadInt(p: Payload, key: string, default: int): Option<int>
  {
    match Get(p, key)
    case None => Some(default)
    case Some(v) => ToInt(v)
  }

  /** The session an `entry` event opens. */
  function NewSession(p: Payload, a: Admission): Session
  {
    Session(
      vehicleId := ItemOf(p, "vehicle_id"),
      slotId := ItemOf(p, "slot_id"),
      startTs := a.ts,
      endTs := None,
      status := Pending,
      ratePerMinCents := a.rate,
      accruedCents := 0,
      releasedCents := 0,
      escrowDepositCents := a.escrow,
      paymentId := None,
      lastTickTs := None,
      percentEscrowUsed := 0.0,
      percentPaidOfAccrued := 0.0,
      masumi := None)
  }

  /** A session an `exit` of `vehicle` may close. */
  predicate OpenFor(s: Session, vehicle: Scalar)
  {
    PyEquals(s.vehicleId, vehicle) && (s.status == Active || s.status == Pending)
  }

  predicate OpenAt(sessions: map<string, Session>, order: seq<string>, vehicle: Scalar, i: int)
    requires 0 <= i < |order|
  {
    order[i] in sessions && OpenFor(sessions[order[i]], vehicle)
  }

  /** The first session, in listing order, that `vehicle` may close. */
  function FirstOpen(sessions: map<string, Session>, order: seq<string>, vehicle: Scalar): (r: Option<string>)
    ensures r.Some? ==> r.value in sessions && OpenFor(sessions[r.value], vehicle)
    ensures r.Some? ==> exists i :: 0 <= i < |order| && order[i] == r.value &&
                          forall j :: 0 <= j < i ==> !OpenAt(sessions, order, vehicle, j)
    ensures r.None? <==> forall i :: 0 <= i < |order| ==> !OpenAt(sessions, order, vehicle, i)
  {
    if order == [] then None
    else if order[0] in sessions && OpenFor(sessions[order[0]], vehicle) then
      assert OpenAt(sessions, order, vehicle, 0);
      Some(order[0])
    else
      var r := FirstOpen(sessions, order[1..], vehicle);
      assert forall i :: 1 <= i < |order| ==> OpenAt(sessions, order, vehicle, i) == OpenAt(sessions, order[1..], vehicle, i - 1);
      if r.Some? then
        var k :| 0 <= k < |order[1..]| && order[1..][k] == r.value &&
                 forall j :: 0 <= j < k ==> !OpenAt(sessions, order[1..], vehicle, j);
        assert order[k + 1] == r.value && OpenAt(sessions, order, vehicle, k + 1);
        r
      else
        r
  }

  /** The scan of the exit branch: walk the sessions in listing order and
      stop at the first one the vehicle may close. */
  method FindOpenSession(sessions: map<string, Session>, order: seq<string>, vehicle: Scalar) returns (found: Option<string>)
    ensures found == FirstOpen(sessions, order, vehicle)
  {
    var i := 0;
    while i < |order|
      invariant 0 <= i <= |order|
      invariant FirstOpen(sessions, order, vehicle) == FirstOpen(sessions, order[i..], vehicle)
    {
      var sid := order[i];
      if sid in sessions && OpenFor(sessions[sid], vehicle) {
        return Some(sid);
      }
      assert order[i..][1..] == order[i + 1..];
      i := i + 1;
    }
    return None;
  }

  class IngestService {
    const store: Store
    const mac: Hmac
    const hmacKey: string
    /** `DEFAULT_RATE`, already read as an integer. */
    const defaultRate: int
    /** The escrow default, read from `RELEASE_THRESHOLD_CENTS`. */
    const defaultEscrow: int

    constructor (store: Store, mac: Hmac, hmacKey: string, defaultRate: int, defaultEscrow: int)
      ensures this.store == store && this.mac == mac && this.hmacKey == hmacKey
      ensures this.defaultRate == defaultRate && this.defaultEscrow == defaultEscrow
    {
      this.store := store;
      this.mac := mac;
      this.hmacKey := hmacKey;
      this.defaultRate := defaultRate;
      this.defaultEscrow := defaultEscrow;
    }

    /** The signature this service expects on `p`. */
    function ExpectedSig(p: Payload): string
    {
      ComputeSig(mac, hmacKey, p)
    }

    /** The payload carries, under `sig`, the signature of its other items. */
    predicate Authentic(p: Payload)
    {
      Get(p, SIG_KEY) == Some(Str(ExpectedSig(p)))
    }

    /** Every recorded event carries the signature this service computes
        over its payload. */
    predicate EventsSigned(events: seq<Event>)
    {
      forall i :: 0 <= i < |events| ==> events[i].sig == ExpectedSig(events[i].payload)
    }

    /** The checks `ingest_scan` makes before it writes anything: an empty
        body, the signature, then `int(...)` on rate, escrow and timestamp. */
    function Screen(p: Payload, now: int): (g: Gate)
      ensures p == [] ==> g == Rejected(400, "invalid json")
      ensures g.Admitted? <==>
        && p != []
        && Authentic(p)
        && ReadInt(p, "rate_per_min_cents", defaultRate).Some?
        && ReadInt(p, "escrow_deposit_cents", defaultEscrow).Some?
        && ReadInt(p, "ts", now).Some?
      ensures g.Admitted? ==> g.event.payload == p && g.event.sig == ExpectedSig(p) && g.event.ts == g.numbers.ts
      ensures g.Admitted? ==> g.event.evType == ItemOf(p, "type") && g.event.scannerId == ItemOf(p, "scanner_id")
      ensures g.Admitted? ==> g.numbers == Admission(
        ReadInt(p, "rate_per_min_cents", defaultRate).value,
        ReadInt(p, "escrow_deposit_cents", defaultEscrow).value,
        ReadInt(p, "ts", now).value)
      ensures p != [] && !Authentic(p) ==>
        g == if SentSig(p).Str? && IsAscii(SentSig(p).s) then Rejected(401, "invalid sig") else Rejected(500, INTERNAL_ERROR)
      ensures p != [] && Authentic(p) && !g.Admitted? ==> g == Rejected(500, INTERNAL_ERROR)
      ensures g.Rejected? ==> g.code in {400, 401, 500}
    {
      if p == [] then Rejected(400, "invalid json")
      else
        var expected := ExpectedSig(p);
        assert IsAscii(expected) by {
          forall i | 0 <= i < |expected| ensures expected[i] as int < 128 {
            assert expected[i] in "0123456789abcdef";
          }
        }
        match CompareDigest(expected, SentSig(p))
        case None => Rejected(500, INTERNAL_ERROR)
        case Some(false) => Rejected(401, "invalid sig")
        case Some(true) =>
          var rate := ReadInt(p, "rate_per_min_cents", defaultRate);
          var escrow := ReadInt(p, "escrow_deposit_cents", defaultEscrow);
          var ts := ReadInt(p, "ts", now);
          if rate.None? || escrow.None? || ts.None? then Rejected(500, INTERNAL_ERROR)
          else
            Admitted(Event(ItemOf(p, "type"), p, ItemOf(p, "scanner_id"), expected, ts.value),
                     Admission(rate.value, escrow.value, ts.value))
    }

    /** The exit branch: mark the first session the vehicle may close as
        `ending`, or answer 404 when there is none. */
    method CloseSession(vehicle: Scalar, order: seq<string>) returns (reply: ScanReply)
      requires store.Valid()
      requires Enumerates(order, store.sessions.Keys)
      modifies store
      ensures store.Valid()
      ensures store.events == old(store.events) && store.payments == old(store.payments)
      ensures var found := FirstOpen(old(store.sessions), order, vehicle);
        && (found.None? ==> reply == Refused(404, "no active session") && store.sessions == old(store.sessions))
        && (found.Some? ==>
              && reply == Closed(found.value)
              && store.sessions == old(store.sessions)[found.value := old(store.sessions)[found.value].(status := Ending)])
    {
      var found := FindOpenSession(store.sessions, order, vehicle);
      if found.None? {
        return Refused(404, "no active session");
      }
      var sid := found.value;
      store.sessions := store.sessions[sid := store.sessions[sid].(status := Ending)];
      reply := Closed(sid);
    }

    /** What `ingest_scan` does once the checks pass: record the event,
        then open a session on `entry`, close one on `exit`. */
    method Admit(event: Event, payload: Payload, numbers: Admission, newSessionId: string, order: seq<string>)
      returns (reply: ScanReply)
      requires store.Valid()
      requires Enumerates(order, store.sessions.Keys)
      modifies store
      ensures store.Valid()
      ensures store.payments == old(store.payments)
      ensures store.events == old(store.events) + [event]
      ensures ItemOf(payload, "type") == Str("entry") ==>
        && reply == Created(newSessionId)
        && store.sessions == old(store.sessions)[newSessionId := NewSession(payload, numbers)]
      ensures ItemOf(payload, "type") == Str("exit") ==>
        var found := FirstOpen(old(store.sessions), order, ItemOf(payload, "vehicle_id"));
        && (found.None? ==> reply == Refused(404, "no active session") && store.sessions == old(store.sessions))
        && (found.Some? ==>
              && reply == Closed(found.value)
              && store.sessions == old(store.sessions)[found.value := old(store.sessions)[found.value].(status := Ending)])
      ensures ItemOf(payload, "type") != Str("entry") && ItemOf(payload, "type") != Str("exit") ==>
        reply == Refused(400, "unknown type") && store.sessions == old(store.sessions)
    {
      store.events := store.events + [event];
      var evType := ItemOf(payload, "type");
      if evType == Str("entry") {
        store.sessions := store.sessions[newSessionId := NewSession(payload, numbers)];
        reply := Created(newSessionId);
      } else if evType == Str("exit") {
        reply := CloseSession(ItemOf(payload, "vehicle_id"), order);
      } else {
        reply := Refused(400, "unknown type");
      }
    }

    /** `ingest_scan`. `now` is the clock, `newSessionId` the identifier an
        entry gets, `order` the order a read of `/sessions` lists them in. */
    method IngestScan(payload: Payload, now: int, newSessionId: string, order: seq<string>) returns (reply: ScanReply)
      requires store.Valid()
      requires Enumerates(order, store.sessions.Keys)
      modifies store
      ensures store.Valid()
      ensures EventsSigned(old(store.events)) ==> EventsSigned(store.events)
      ensures store.payments == old(store.payments)
      ensures Screen(payload, now).Rejected? ==>
        unchanged(store) && reply == Refused(Screen(payload, now).code, Screen(payload, now).error)
      ensures Screen(payload, now).Admitted? ==> store.events == old(store.events) + [Screen(payload, now).event]
      ensures Screen(payload, now).Admitted? && ItemOf(payload, "type") == Str("entry") ==>
        && reply == Created(newSessionId)
        && store.sessions == old(store.sessions)[newSessionId := NewSession(payload, Screen(payload, now).numbers)]
      ensures Screen(payload, now).Admitted? && ItemOf(payload, "type") == Str("exit") ==>
        var found := FirstOpen(old(store.sessions), order, ItemOf(payload, "vehicle_id"));
        && (found.None? ==> reply == Refused(404, "no active session") && store.sessions == old(store.sessions))
        && (found.Some? ==>
              && reply == Closed(found.value)
              && store.sessions == old(store.sessions)[found.value := old(store.sessions)[found.value].(status := Ending)])
      ensures Screen(payload, now).Admitted? && ItemOf(payload, "type") != Str("entry") && ItemOf(payload, "type") != Str("exit") ==>
        reply == Refused(400, "unknown type") && store.sessions == old(store.sessions)
    {
      var gate := Screen(payload, now);
      if gate.Rejected? {
        return Refused(gate.code, gate.error);
      }
      reply := Admit(gate.event, payload, gate.numbers, newSessionId, order);
    }
  }
}
