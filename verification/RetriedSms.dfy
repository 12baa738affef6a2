/**
 * Retrying an sms mailing whose walk is over. The marker outlives the retry, so the next sweep's
 * drives leave the mailing alone and its pump closes it again: nobody is sent to a second time.
 */
module RetriedSms {
  import opened MailTypes
  import opened TraceLifecycle
  import opened TraceTable
  import BatchUpdate
  import opened RetryVerb
  import opened Sweep
  import SmsPump
  import PumpRace
  import M = MailingLifecycle

  /** A completed, unparked sms mailing whose walk is over and whose messages all have their verdict. */
  ghost predicate ClosedSms(s: Engine, id: Id) {
    && id < |s.rows| && s.rows[id].state.Done? && s.rows[id].isSms && s.rows[id].walkDone
    && s.rows[id].sendError.None? && !s.rows[id].deleted
    && PumpRace.Remaining(s.traces, id) == 0
  }

  /** What a successful retry of the mailing leaves. */
  function Retried(s: Engine, id: Id): Engine
    requires id < |s.rows|
  {
    Engine(s.rows[id := s.rows[id].(state := M.InQueue)], Freed(s.traces, id))
  }

  lemma {:induction false} FreeingLeavesNothingWaiting(ts: Table, id: Id)
    requires PumpRace.Remaining(ts, id) == 0
    ensures PumpRace.Remaining(Freed(ts, id), id) == 0
  {
    var p := PumpRace.TransientOf(id);
    CountZero(ts, p);
    CountZero(Freed(ts, id), p);
    assert forall i :: 0 <= i < |ts| ==> p(Freed(ts, id)[i]) ==> p(ts[i]);
  }

  /** A table that grows for other mailings only has nothing new of this one. */
  lemma {:induction false} GrowthElsewhere(a: Table, b: Table, mailings: set<Id>, id: Id)
    requires Grows(a, b, mailings) && id !in mailings
    requires PumpRace.Remaining(a, id) == 0
    ensures PumpRace.Remaining(b, id) == 0
    ensures forall i :: |a| <= i < |b| ==> b[i].mailing != id
  {
    var p := PumpRace.TransientOf(id);
    CountZero(a, p);
    CountZero(b, p);
    forall i | 0 <= i < |b|
      ensures !p(b[i])
    {
      if i < |a| {
        assert !p(a[i]);
      }
    }
  }

  /** Driving a walked-out sms mailing, once or among others, does not touch its row. */
  lemma {:induction false} WalkedOutIsLeftAlone(s: Engine, ids: seq<Id>, night: Night, id: Id)
    requires InRange(ids, |s.rows|) && id < |s.rows| && s.rows[id].isSms && s.rows[id].walkDone
    requires night.plans(id).scopeError.None?
    ensures DriveEach(s, ids, night).rows[id] == s.rows[id]
  {
    if ids != [] {
      WalkedOutIsLeftAlone(s, ids[..|ids| - 1], night, id);
    }
  }

  /** The sweep flips the re-queued mailing to sending and, its walk being over, drives it no further. */
  lemma {:induction false} SweepLeavesItAlone(s: Engine, limit: nat, night: Night, id: Id)
    requires id < |s.rows| && s.rows[id].state.InQueue? && s.rows[id].isSms && s.rows[id].walkDone
    requires id in Claims(s.rows, night.now, limit)
    requires night.plans(id).parseError.None? && night.plans(id).scopeError.None?
    requires PumpRace.Remaining(s.traces, id) == 0
    ensures var u := AfterMove(s, Sweeping(limit, night));
            && u.rows[id] == s.rows[id].(state := M.Sending)
            && PumpRace.Remaining(u.traces, id) == 0
            && |s.traces| <= |u.traces|
            && (forall i :: 0 <= i < |s.traces| ==> u.traces[i].deleted == s.traces[i].deleted)
            && (forall i :: |s.traces| <= i < |u.traces| ==> u.traces[i].mailing != id)
  {
    var claims := Claims(s.rows, night.now, limit);
    ClaimIsSound(s.rows, night.now, limit);
    DrivenInRange(claims, night, |s.rows|);
    FilterSelects(claims, Parses(night));
    var driven := Driven(claims, night);
    var vetted := Engine(Vetted(s.rows, claims, night), s.traces);
    DrivesAddTheirOwnTraces(vetted, driven, night);
    GrowthElsewhere(s.traces, DriveEach(vetted, driven, night).traces, MailOf(vetted, driven), id);
    WalkedOutIsLeftAlone(vetted, driven, night, id);
  }

  // ----- the rest of the sweep -------------------------------------------------------------

  /** What the steps after the drives meet: settled mails, winner copies to queue, tracker answers. */
  datatype Rest = Rest(mails: Mails, copies: seq<M.Mailing>, trackers: SmsPump.Trackers, at: Time)

  /** Reconcile, promotion and the pump's advance arm, in the sweep's order, up to the inference. */
  function BeforeInference(s: Engine, rest: Rest): Engine {
    Engine(s.rows + rest.copies,
           SmsPump.AdvancePass(Reconciled(s.traces, rest.mails, rest.at), rest.trackers, rest.at))
  }

  /** One row's settling, by whatever verdict. */
  predicate Settles(t: Trace, u: Trace) {
    u.mailing == t.mailing && u.deleted == t.deleted && (SmsPump.Transient(u) ==> SmsPump.Transient(t))
  }

  /** Rows stay where they are and whose they are, the freed stay freed, and none waits that did not before. */
  ghost predicate SettlesOnly(a: Table, b: Table) {
    |b| == |a| && forall i :: 0 <= i < |a| ==> Settles(a[i], b[i])
  }

  lemma {:induction false} BatchSettlesOnly(ts: Table, p: Trace -> bool, f: Trace -> Trace, k: nat)
    requires forall t: Trace :: p(t) ==> Settles(t, f(t))
    ensures SettlesOnly(ts, BatchUpdate.UpdateFirst(ts, p, f, k))
  {
    forall i | 0 <= i < |ts|
      ensures Settles(ts[i], BatchUpdate.UpdateFirst(ts, p, f, k)[i])
    {
      BatchUpdate.UpdateFirstPointwise(ts, p, f, k, i);
    }
  }

  lemma {:induction false} SettlingLeavesNothingWaiting(a: Table, b: Table, id: Id)
    requires SettlesOnly(a, b) && PumpRace.Remaining(a, id) == 0
    ensures PumpRace.Remaining(b, id) == 0
  {
    var p := PumpRace.TransientOf(id);
    CountZero(a, p);
    CountZero(b, p);
    assert forall i :: 0 <= i < |b| ==> p(b[i]) ==> p(a[i]);
  }

  lemma {:induction false} RestSettlesOnly(s: Engine, rest: Rest)
    ensures SettlesOnly(s.traces, BeforeInference(s, rest).traces)
  {
    var mid := Reconciled(s.traces, rest.mails, rest.at);
    BatchSettlesOnly(s.traces, Settled(rest.mails), WithVerdict(rest.mails, rest.at), RECONCILE_BATCH);
    BatchSettlesOnly(mid, SmsPump.Scanned(rest.trackers), SmsPump.Pumped(rest.trackers, rest.at), SmsPump.TRACE_BATCH);
  }

  /** The inference arm over this state: scan, lock, re-check and complete each candidate. */
  ghost predicate Inferring(s: Engine, after: seq<M.Mailing>, at: Time) {
    PumpRace.Inferred(s.rows, after,
                      BatchUpdate.FirstIds(s.rows, PumpRace.IsCandidate(), PumpRace.CANDIDATE_BATCH, 0),
                      PumpRace.Quiet(s.traces), at)
  }

  /** Within the candidate batch the inference closes every candidate with nothing waiting. */
  lemma {:induction false} QuietCandidateCloses(s: Engine, after: seq<M.Mailing>, at: Time, id: Id)
    requires Inferring(s, after, at) && Count(s.rows, PumpRace.IsCandidate()) <= PumpRace.CANDIDATE_BATCH
    requires id < |s.rows| && PumpRace.Candidate(s.rows[id]) && PumpRace.Remaining(s.traces, id) == 0
    ensures id < |after| && after[id] == M.Updated(M.CompleteWalk, s.rows[id], at)
  {
    BatchUpdate.FirstIdsComplete(s.rows, PumpRace.IsCandidate(), PumpRace.CANDIDATE_BATCH, 0, id);
  }

  /**
   * Retry, then one whole sweep, its drives, reconcile, promotions and pump: an sms mailing closed
   * with failed messages is freed, re-queued, claimed and closed again. No trace of it is minted on
   * the way and the freed ones stay freed: the retry reports them, yet their recipients stay unsent.
   */
  lemma {:induction false} SmsRetrySendsNobody(s: Engine, limit: nat, night: Night, rest: Rest, id: Id,
          after: seq<M.Mailing>)
    requires ClosedSms(s, id) && id in Claims(Retried(s, id).rows, night.now, limit)
    requires night.plans(id).parseError.None? && night.plans(id).scopeError.None?
    requires var end := BeforeInference(AfterMove(Retried(s, id), Sweeping(limit, night)), rest);
             && Count(end.rows, PumpRace.IsCandidate()) <= PumpRace.CANDIDATE_BATCH
             && Inferring(end, after, rest.at)
    ensures id < |after| && after[id].state.Done? && after[id].walkDone
    ensures var end := BeforeInference(AfterMove(Retried(s, id), Sweeping(limit, night)), rest);
            && |s.traces| <= |end.traces|
            && (forall i :: |s.traces| <= i < |end.traces| ==> end.traces[i].mailing != id)
            && (forall i :: 0 <= i < |s.traces| && LiveErrorsOf(id)(s.traces[i]) ==> end.traces[i].deleted)
  {
    FreeingLeavesNothingWaiting(s.traces, id);
    var retried := Retried(s, id);
    SweepLeavesItAlone(retried, limit, night, id);
    var swept := AfterMove(retried, Sweeping(limit, night));
    var end := BeforeInference(swept, rest);
    RestSettlesOnly(swept, rest);
    SettlingLeavesNothingWaiting(swept.traces, end.traces, id);
    assert end.rows[id] == swept.rows[id];
    QuietCandidateCloses(end, after, rest.at, id);
  }
}
