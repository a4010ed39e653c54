/**
  The meter worker's tick: bring every billable session's accrued charge up
  to elapsed minutes times its rate, ask the payments agent to release what
  is owed, and finalise sessions that are ending.
 */
module MeterWorker {
  import opened Wrappers
  import opened Json
  import opened Records

  /** The body of a POST to the payments agent's `/release`. */
  datatype ReleaseRequest = ReleaseRequest(paymentId: string, amountCents: int, sessionId: string, idempotencyKey: string)

  function Max(a: int, b: int): int { if a >= b then a else b }

  function Min(a: int, b: int): int { if a <= b then a else b }

  /** Whole minutes since the session started, never negative; a start
      time of 0 (falsy) counts as now. */
  function ElapsedMinutes(startTs: int, now: int): (m: nat)
    ensures var elapsed := now - (if startTs == 0 then now else startTs);
      && (elapsed < 0 ==> m == 0)
      && (elapsed >= 0 ==> m * 60 <= elapsed < m * 60 + 60)
  {
    var start := if startTs == 0 then now else startTs;
    var minutes := (now - start) / 60;
    if minutes < 0 then 0 else minutes
  }

  /** `target_accrued` */
  function TargetAccrued(s: Session, now: int): int
  {
    ElapsedMinutes(s.startTs, now) * s.ratePerMinCents
  }

  /** `tx_accrued`: raise the accrued charge to `target`, stamping the tick
      time, and leave the session alone when it is already there. */
  function Accrue(s: Session, target: int, now: int): (r: Session)
    ensures r.accruedCents == Max(s.accruedCents, target)
    ensures r.lastTickTs == if target > s.accruedCents then Some(now) else s.lastTickTs
    ensures r.(accruedCents := s.accruedCents, lastTickTs := s.lastTickTs) == s
  {
    var delta := target - s.accruedCents;
    if delta > 0 then s.(accruedCents := s.accruedCents + delta, lastTickTs := Some(now)) else s
  }

  predicate Billable(s: Session)
  {
    s.status == Active || s.status == Ending
  }

  /** A truthy `payment_id`. */
  predicate HasPayment(s: Session)
  {
    s.paymentId.Some? && s.paymentId.value != ""
  }

  /** `f"{sid}-{now}"` */
  function BatchKey(sid: string, now: int): string
  {
    sid + "-" + Decimal(now)
  }

  /** `f"{sid}-final-{now}"` */
  function FinalKey(sid: string, now: int): string
  {
    sid + "-final-" + Decimal(now)
  }

  /** The session as the tick leaves it. */
  function TickSession(s: Session, now: int): (r: Session)
    ensures r.accruedCents >= s.accruedCents && r.releasedCents == s.releasedCents
    ensures r.paymentId == s.paymentId
    ensures !Billable(s) ==> r == s
    ensures Billable(s) ==>
      var target := ElapsedMinutes(s.startTs, now) * s.ratePerMinCents;
      && r.accruedCents == Max(s.accruedCents, target)
      && r.lastTickTs == (if target > s.accruedCents then Some(now) else s.lastTickTs)
    ensures s.status == Active ==> r == s.(accruedCents := r.accruedCents, lastTickTs := r.lastTickTs)
    ensures s.status == Ending ==>
      r == s.(accruedCents := r.accruedCents, lastTickTs := r.lastTickTs, status := Ended, endTs := Some(now))
    ensures s.status == Ending ==> r.status == Ended && r.endTs == Some(now)
    ensures s.status != Ending ==> r.status == s.status
  {
    if !Billable(s) then s
    else
      var current := Accrue(s, TargetAccrued(s, now), now);
      if s.status == Ending then current.(status := Ended, endTs := Some(now)) else current
  }

  /** The release the tick asks for on behalf of session `sid`, if any. */
  function RequestFor(sid: string, s: Session, now: int, threshold: int, limit: int): (r: Option<ReleaseRequest>)
    ensures !Billable(s) ==> r.None?
    ensures r.Some? ==> r.value.sessionId == sid && s.paymentId == Some(r.value.paymentId) && HasPayment(s)
    ensures r.Some? ==> r.value.amountCents <= Unpaid(TickSession(s, now))
    ensures r.Some? && threshold > 0 && limit > 0 ==> r.value.amountCents > 0
    ensures s.status == Active ==>
      && (r.Some? <==> HasPayment(s) && Unpaid(TickSession(s, now)) >= threshold)
      && (r.Some? ==> r.value.amountCents == Min(Unpaid(TickSession(s, now)), limit))
      && (r.Some? ==> r.value.amountCents <= limit && r.value.idempotencyKey == BatchKey(sid, now))
    ensures s.status == Ending ==>
      && (r.Some? <==> HasPayment(s) && Unpaid(TickSession(s, now)) > 0)
      && (r.Some? ==> r.value.amountCents == Unpaid(TickSession(s, now)) && r.value.idempotencyKey == FinalKey(sid, now))
  {
    if !Billable(s) then None
    else
      var current := Accrue(s, TargetAccrued(s, now), now);
      var unpaid := Unpaid(current);
      if s.status == Ending then
        if unpaid > 0 && HasPayment(current) then Some(ReleaseRequest(current.paymentId.value, unpaid, sid, FinalKey(sid, now)))
        else None
      else if unpaid >= threshold && HasPayment(current) then
        Some(ReleaseRequest(current.paymentId.value, Min(unpaid, limit), sid, BatchKey(sid, now)))
      else None
  }

  function AsSeq(r: Option<ReleaseRequest>): seq<ReleaseRequest>
  {
    if r.Some? then [r.value] else []
  }

  /** Every session after one tick. */
  function TickSessions(m: map<string, Session>, now: int): (r: map<string, Session>)
    ensures r.Keys == m.Keys
  {
    map sid | sid in m :: TickSession(m[sid], now)
  }

  /** The releases a tick asks for, in the order it visits the sessions. */
  function TickRequests(m: map<string, Session>, order: seq<string>, now: int, threshold: int, limit: int)
    : seq<ReleaseRequest>
    requires forall i :: 0 <= i < |order| ==> order[i] in m
  {
    if order == [] then []
    else
      var last := order[|order| - 1];
      TickRequests(m, order[..|order| - 1], now, threshold, limit) + AsSeq(RequestFor(last, m[last], now, threshold, limit))
  }

  /** The sessions once a tick has visited the first `n` sessions of `order`. */
  function TickedPrefix(m: map<string, Session>, order: seq<string>, now: int, n: nat): (r: map<string, Session>)
    requires n <= |order| && forall i :: 0 <= i < |order| ==> order[i] in m
    ensures r.Keys == m.Keys
  {
    if n == 0 then m
    else TickedPrefix(m, order, now, n - 1)[order[n - 1] := TickSession(m[order[n - 1]], now)]
  }

  /** The sessions a tick has visited are ticked, the others untouched. */
  lemma {:induction false} TickedPrefixPointwise(m: map<string, Session>, order: seq<string>, now: int, n: nat)
    requires n <= |order| && forall i :: 0 <= i < |order| ==> order[i] in m
    requires NoDuplicates(order)
    ensures forall i :: 0 <= i < n ==> TickedPrefix(m, order, now, n)[order[i]] == TickSession(m[order[i]], now)
    ensures forall i :: n <= i < |order| ==> TickedPrefix(m, order, now, n)[order[i]] == m[order[i]]
  {
    DistinctAll(order);
    if n > 0 {
      TickedPrefixPointwise(m, order, now, n - 1);
    }
  }

  /** A tick that has visited every session has ticked them all. */
  lemma TickedAll(m: map<string, Session>, order: seq<string>, now: int)
    requires Enumerates(order, m.Keys)
    ensures TickedPrefix(m, order, now, |order|) == TickSessions(m, now)
  {
    TickedPrefixPointwise(m, order, now, |order|);
    var r := TickedPrefix(m, order, now, |order|);
    forall sid | sid in m
      ensures r[sid] == TickSession(m[sid], now)
    {
      var j :| 0 <= j < |order| && order[j] == sid;
    }
  }

  /** Several ticks in a row, at the times `nows`. */
  function Ticks(m: map<string, Session>, nows: seq<int>): (r: map<string, Session>)
    ensures r.Keys == m.Keys
  {
    if nows == [] then m else Ticks(TickSessions(m, nows[0]), nows[1..])
  }

  /** Re-applying a target the session has already reached is a no-op,
      whatever the time of the second application. */
  lemma AccrueIdempotent(s: Session, target: int, now: int, later: int)
    ensures Accrue(Accrue(s, target, now), target, later) == Accrue(s, target, now)
  {
  }

  /** However many ticks run, no session's accrued charge goes down and no
      tick touches what has been released. */
  lemma {:induction false} AccrualNeverDecreases(m: map<string, Session>, nows: seq<int>)
    ensures forall sid :: sid in m ==>
      && Ticks(m, nows)[sid].accruedCents >= m[sid].accruedCents
      && Ticks(m, nows)[sid].releasedCents == m[sid].releasedCents
  {
    if nows != [] {
      AccrualNeverDecreases(TickSessions(m, nows[0]), nows[1..]);
    }
  }

  /** A second tick at the same time leaves the sessions as the first left
      them: targets are already reached and ending sessions are ended. */
  lemma TickSessionsIdempotent(m: map<string, Session>, now: int)
    ensures TickSessions(TickSessions(m, now), now) == TickSessions(m, now)
  {
    var once := TickSessions(m, now);
    forall sid | sid in m
      ensures TickSession(once[sid], now) == once[sid]
    {
      var s := m[sid];
      if Billable(s) {
        AccrueIdempotent(s, TargetAccrued(s, now), now, now);
      }
    }
  }

  /** What a retried tick asks for about one session: nothing new. */
  lemma RetryRequest(sid: string, s: Session, now: int, threshold: int, limit: int)
    ensures var again := RequestFor(sid, TickSession(s, now), now, threshold, limit);
      again.Some? ==> again == RequestFor(sid, s, now, threshold, limit)
  {
    if s.status == Active {
      AccrueIdempotent(s, TargetAccrued(s, now), now, now);
    }
  }

  /** A tick retried at the same `now` asks for no release the first run did
      not already ask for, with the same idempotency key. */
  lemma {:induction false} RetriedTickAddsNothing(m: map<string, Session>, order: seq<string>, now: int, threshold: int, limit: int)
    requires forall i :: 0 <= i < |order| ==> order[i] in m
    ensures forall q :: q in TickRequests(TickSessions(m, now), order, now, threshold, limit) ==>
      q in TickRequests(m, order, now, threshold, limit)
  {
    if order != [] {
      var last := order[|order| - 1];
      RetriedTickAddsNothing(m, order[..|order| - 1], now, threshold, limit);
      RetryRequest(last, m[last], now, threshold, limit);
    }
  }

  /** At most one release request per session per tick. */
  lemma {:induction false} OneRequestPerSession(m: map<string, Session>, order: seq<string>, now: int, threshold: int, limit: int)
    requires forall i :: 0 <= i < |order| ==> order[i] in m
    requires forall i, j :: 0 <= i < j < |order| ==> order[i] != order[j]
    ensures var rs := TickRequests(m, order, now, threshold, limit);
      && (forall q :: q in rs ==> q.sessionId in order)
      && (forall i, j :: 0 <= i < j < |rs| ==> rs[i].sessionId != rs[j].sessionId)
  {
    if order != [] {
      var prefix := order[..|order| - 1];
      var last := order[|order| - 1];
      OneRequestPerSession(m, prefix, now, threshold, limit);
      var before := TickRequests(m, prefix, now, threshold, limit);
      var extra := AsSeq(RequestFor(last, m[last], now, threshold, limit));
      var rs := TickRequests(m, order, now, threshold, limit);
      assert rs == before + extra;
      assert last !in prefix;
      assert forall x :: x in prefix ==> x in order;
      forall i, j | 0 <= i < j < |rs|
        ensures rs[i].sessionId != rs[j].sessionId
      {
        if j >= |before| {
          assert rs[i] in before && rs[j] in extra;
          assert rs[j].sessionId == last;
        } else {
          assert rs[i] == before[i] && rs[j] == before[j];
        }
      }
    }
  }

  /** The idempotency keys a tick uses identify the tick: two ticks of the
      same session at different times never share a key, and a final key
      never equals a batch key. */
  lemma KeysIdentifyTick(sid: string, a: int, b: int)
    ensures BatchKey(sid, a) == BatchKey(sid, b) ==> a == b
    ensures FinalKey(sid, a) == FinalKey(sid, b) ==> a == b
    ensures FinalKey(sid, a) != BatchKey(sid, b)
  {
    if BatchKey(sid, a) == BatchKey(sid, b) {
      assert Decimal(a) == BatchKey(sid, a)[|sid| + 1..];
      assert Decimal(b) == BatchKey(sid, b)[|sid| + 1..];
      DecimalInjective(a, b);
    }
    if FinalKey(sid, a) == FinalKey(sid, b) {
      assert Decimal(a) == FinalKey(sid, a)[|sid| + 7..];
      assert Decimal(b) == FinalKey(sid, b)[|sid| + 7..];
      DecimalInjective(a, b);
    }
    assert FinalKey(sid, a)[|sid| + 1] == 'f';
    assert BatchKey(sid, b)[|sid| + 1] == Decimal(b)[0];
  }

  /** Whole minutes, clamped at zero, with a zero start counting as now. */
  lemma ElapsedExamples()
    ensures ElapsedMinutes(1000, 1130) == 2
    ensures ElapsedMinutes(1000, 1059) == 0
    ensures ElapsedMinutes(2000, 1130) == 0
    ensures ElapsedMinutes(0, 1130) == 0
  {
  }

  class Worker {
    const store: Store
    /** `RELEASE_THRESHOLD_CENTS` */
    const threshold: int
    /** `RELEASE_BATCH_LIMIT_CENTS` */
    const batchLimit: int

    constructor (store: Store, threshold: int, batchLimit: int)
      ensures this.store == store && this.threshold == threshold && this.batchLimit == batchLimit
    {
      this.store := store;
      this.threshold := threshold;
      this.batchLimit := batchLimit;
    }

    /** The body of the tick's loop for session `sid`: the accrual
        transaction, the fresh read, the release post and, for an ending
        session, the final update. */
    method TickOne(sid: string, now: int) returns (request: Option<ReleaseRequest>)
      requires sid in store.sessions
      modifies store
      ensures store.events == old(store.events) && store.payments == old(store.payments)
      ensures store.sessions == old(store.sessions)[sid := TickSession(old(store.sessions)[sid], now)]
      ensures request == RequestFor(sid, old(store.sessions)[sid], now, threshold, batchLimit)
    {
      var s := store.sessions[sid];
      if s.status != Active && s.status != Ending {
        return None;
      }
      var target := TargetAccrued(s, now);
      store.sessions := store.sessions[sid := Accrue(s, target, now)];
      var current := store.sessions[sid];
      var unpaid := current.accruedCents - current.releasedCents;
      request := None;
      if s.status == Ending {
        if unpaid > 0 && HasPayment(current) {
          request := Some(ReleaseRequest(current.paymentId.value, unpaid, sid, FinalKey(sid, now)));
        }
        store.sessions := store.sessions[sid := current.(status := Ended, endTs := Some(now))];
      } else if unpaid >= threshold && HasPayment(current) {
        request := Some(ReleaseRequest(current.paymentId.value, Min(unpaid, batchLimit), sid, BatchKey(sid, now)));
      }
    }

    /** `process_tick` at time `now`, visiting the sessions in `order`. The
        release requests are returned in the order they are posted; a
        failed post changes nothing here. */
    method ProcessTick(now: int, order: seq<string>) returns (requests: seq<ReleaseRequest>)
      requires store.Valid()
      requires Enumerates(order, store.sessions.Keys)
      modifies store
      ensures store.Valid()
      ensures store.events == old(store.events) && store.payments == old(store.payments)
      ensures store.sessions == TickSessions(old(store.sessions), now)
      ensures requests == TickRequests(old(store.sessions), order, now, threshold, batchLimit)
    {
      ghost var snapshot := store.sessions;
      requests := [];
      var i := 0;
      while i < |order|
        invariant 0 <= i <= |order|
        invariant store.sessions == TickedPrefix(snapshot, order, now, i)
        invariant requests == TickRequests(snapshot, order[..i], now, threshold, batchLimit)
        invariant store.events == old(store.events) && store.payments == old(store.payments)
      {
        TickedPrefixPointwise(snapshot, order, now, i);
        var request := TickOne(order[i], now);
        requests := requests + AsSeq(request);
        assert order[..i + 1][..i] == order[..i];
        i := i + 1;
      }
      assert order[..|order|] == order;
      TickedAll(snapshot, order, now);
    }
  }
}
