/**
  The billing pipeline end to end, on concrete sessions: the meter worker's
  tick asks for releases, the payments agent's `tx_update` records them,
  and the next tick sees what was released.
 */
module Pipeline {
  import opened Wrappers
  import opened Json
  import opened Records
  import opened MeterWorker
  import opened PaymentsAgent

  /** A session that has a payment `pid` and has been billed `accrued`
      cents, of which `released` have been released. */
  function Billed(status: Status, startTs: int, accrued: int, released: int, pid: string): (r: Session)
    ensures r.status == status && r.startTs == startTs && r.ratePerMinCents == 10
    ensures Unpaid(r) == accrued - released && HasPayment(r) == (pid != "")
  {
    Session(Null, Null, startTs, None, status, 10, accrued, released, 0, Some(pid), None, 0.0, 0.0, None)
  }

  /** Entry at 1000 at 10 cents a minute: a tick 130 seconds later bills
      two whole minutes, one 59 seconds later bills nothing. */
  lemma WholeMinutesAccrue(pid: string)
    ensures TickSession(Billed(Active, 1000, 0, 0, pid), 1130).accruedCents == 20
    ensures TickSession(Billed(Active, 1000, 0, 0, pid), 1130).lastTickTs == Some(1130)
    ensures TickSession(Billed(Active, 1000, 0, 0, pid), 1059).accruedCents == 0
    ensures TickSession(Billed(Active, 1000, 0, 0, pid), 1059).lastTickTs == None
  {
    assert ElapsedMinutes(1000, 1130) == 2;
    assert ElapsedMinutes(1000, 1059) == 0;
  }

  /** With a threshold of 100 and a batch limit of 1000, a funded session
      owing 1500 gets one release of 1000; once that release is recorded,
      the next tick a minute later asks for the remaining 500: the minute's
      10 cents are already covered by what was billed. */
  lemma BatchesDrainTheBalance(sid: string, pid: string)
    requires pid != ""
    ensures var s := Billed(Active, 5000, 1500, 0, pid);
      var first := RequestFor(sid, s, 5000, 100, 1000);
      && first == Some(MeterWorker.ReleaseRequest(pid, 1000, sid, BatchKey(sid, 5000)))
      && var paid := ApplyRelease(TickSession(s, 5000), 1000);
      && paid.releasedCents == 1000
      && RequestFor(sid, paid, 5060, 100, 1000) == Some(MeterWorker.ReleaseRequest(pid, 500, sid, BatchKey(sid, 5060)))
  {
    var s := Billed(Active, 5000, 1500, 0, pid);
    assert ElapsedMinutes(5000, 5000) == 0;
    assert ElapsedMinutes(5000, 5060) == 1;
    var paid := ApplyRelease(TickSession(s, 5000), 1000);
    assert paid.accruedCents == 1500 && paid.startTs == 5000 && paid.status == Active && paid.paymentId == Some(pid);
  }

  /** An ending session owing more than the batch limit gets one final
      release of the whole balance and is ended at the tick time. */
  lemma FinalReleaseIsUncapped(sid: string, pid: string)
    requires pid != ""
    ensures var s := Billed(Ending, 5000, 2500, 300, pid);
      && RequestFor(sid, s, 5000, 100, 1000) == Some(MeterWorker.ReleaseRequest(pid, 2200, sid, FinalKey(sid, 5000)))
      && TickSession(s, 5000).status == Ended
      && TickSession(s, 5000).endTs == Some(5000)
      && RequestFor(sid, TickSession(s, 5000), 5060, 100, 1000).None?
  {
    assert ElapsedMinutes(5000, 5000) == 0;
  }

  /** An ending session with nothing owed is ended without a release. */
  lemma SettledSessionEndsQuietly(sid: string, pid: string)
    ensures var s := Billed(Ending, 5000, 700, 700, pid);
      && RequestFor(sid, s, 5000, 100, 1000).None?
      && TickSession(s, 5000).status == Ended
  {
    assert ElapsedMinutes(5000, 5000) == 0;
  }
}
