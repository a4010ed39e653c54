/**
  The records the three services share through the key/value store, and the
  store itself: `/events` (append-only), `/sessions` and `/payments`, each
  child keyed by an opaque identifier.
 */
module Records {
  import opened Wrappers
  import opened Json
  import opened Canonical

  /** pending -> awaiting_funding -> active -> ending -> ended */
  datatype Status = Pending | AwaitingFunding | Active | Ending | Ended

  /** The `masumi` sub-record `create_payment` writes into a session. */
  datatype MasumiLink = MasumiLink(blockchainIdentifier: string, network: string, agentIdentifier: string)

  /** A `/sessions` child. Fields the store holds as `None` (absent) are `None` here. */
  datatype Session = Session(
    vehicleId: Scalar,
    slotId: Scalar,
    startTs: int,
    endTs: Option<int>,
    status: Status,
    ratePerMinCents: int,
    accruedCents: int,
    releasedCents: int,
    escrowDepositCents: int,
    paymentId: Option<string>,
    lastTickTs: Option<int>,
    percentEscrowUsed: real,
    percentPaidOfAccrued: real,
    masumi: Option<MasumiLink>)

  /** An `/events` child: written once, never changed. */
  datatype Event = Event(evType: Scalar, payload: Payload, scannerId: Scalar, sig: string, ts: int)

  /** A child of a payment's `releases`. */
  datatype ReleaseRecord = ReleaseRecord(
    amountCents: int,
    txHash: Json,
    ts: int,
    idempotencyKey: string,
    submitResultHash: string,
    masumiResponse: Json)

  /** A `/payments` child, keyed by the escrow's blockchain identifier. */
  datatype Payment = Payment(
    paymentId: string,
    sessionId: string,
    blockchainIdentifier: string,
    masumiPayment: Json,
    funded: bool,
    releases: seq<ReleaseRecord>,
    createdTs: int,
    masumiLastStatus: Option<Json>)

  /** `percent_fields(session)`: released as a percentage of the escrow
      deposit and of the accrued charge, 0 when the denominator is not
      positive. Python rounds both to two decimals; the model keeps the
      exact ratio. */
  function PercentFields(s: Session): (r: (real, real))
    ensures s.escrowDepositCents <= 0 ==> r.0 == 0.0
    ensures s.escrowDepositCents > 0 ==> r.0 * s.escrowDepositCents as real == s.releasedCents as real * 100.0
    ensures s.accruedCents <= 0 ==> r.1 == 0.0
    ensures s.accruedCents > 0 ==> r.1 * s.accruedCents as real == s.releasedCents as real * 100.0
  {
    var escrow := s.escrowDepositCents as real;
    var accrued := s.accruedCents as real;
    var released := s.releasedCents as real;
    (if s.escrowDepositCents > 0 then released / escrow * 100.0 else 0.0,
     if s.accruedCents > 0 then released / accrued * 100.0 else 0.0)
  }

  function Unpaid(s: Session): int
  {
    s.accruedCents - s.releasedCents
  }

  /** The idempotency keys of distinct releases differ. */
  predicate DistinctIdempotencyKeys(rs: seq<ReleaseRecord>)
  {
    forall i, j :: 0 <= i < j < |rs| ==> rs[i].idempotencyKey != rs[j].idempotencyKey
  }

  predicate PaymentInvariant(p: Payment)
  {
    && (p.releases != [] ==> p.funded)
    && DistinctIdempotencyKeys(p.releases)
    && p.sessionId != ""
  }

  /** No key occurs twice in `order`. */
  predicate NoDuplicates(order: seq<string>)
  {
    order == [] || (order[0] !in order[1..] && NoDuplicates(order[1..]))
  }

  lemma {:induction false} DistinctAll(order: seq<string>)
    requires NoDuplicates(order)
    ensures forall i, j :: 0 <= i < j < |order| ==> order[i] != order[j]
  {
    if order != [] {
      DistinctAll(order[1..]);
      forall i, j | 0 <= i < j < |order|
        ensures order[i] != order[j]
      {
        if i == 0 {
          assert order[j] == order[1..][j - 1];
        } else {
          assert order[i] == order[1..][i - 1] && order[j] == order[1..][j - 1];
        }
      }
    }
  }

  /** `order` lists every key of the collection once: the order in which a
      full read of the collection hands its children back. */
  ghost predicate Enumerates(order: seq<string>, keys: set<string>)
  {
    && NoDuplicates(order)
    && (forall k :: k in keys <==> k in order)
  }

  class Store {
    var events: seq<Event>
    var sessions: map<string, Session>
    var payments: map<string, Payment>

    /** What every operation of the three services preserves: a payment
        is stored under its own blockchain identifier and belongs to a
        stored session; a payment with a release is funded; within one
        payment no idempotency key is recorded twice. */
    ghost predicate Valid()
      reads this
    {
      forall pid :: pid in payments ==>
        && payments[pid].paymentId == pid
        && payments[pid].blockchainIdentifier == pid
        && payments[pid].sessionId in sessions
        && PaymentInvariant(payments[pid])
    }

    constructor ()
      ensures Valid()
      ensures events == [] && sessions == map[] && payments == map[]
    {
      events := [];
      sessions := map[];
      payments := map[];
    }
  }
}
