/**
 * `retry_failed`: free the recipients whose trace ended in error, then re-queue the mailing. What
 * it touches, what it refuses, and whom the next drive may send to again.
 */
module RetryVerb {
  import opened MailTypes
  import opened TraceLifecycle
  import opened TraceTable
  import opened SendWalk
  import opened MailDrive
  import M = MailingLifecycle

  const RETRY_BATCH: nat := 1000

  /** The table with every live error trace of the mailing soft-deleted, and nothing else touched. */
  function Freed(ts: Table, mailing: Id): Table {
    seq(|ts|, i requires 0 <= i < |ts| => if LiveError(ts[i], mailing) then ts[i].(deleted := true) else ts[i])
  }

  datatype RetryRefusal = NothingFailed | NotDone

  /**
   * The verb: nothing failed refuses, a mailing that is not done refuses, and a refusal changes
   * nothing. Otherwise it frees exactly the failed traces and answers how many there were.
   */
  method RetryFailed(mailings: M.MailingRepository, traces: TraceRepository, id: Id, now: Time)
    returns (r: Result<nat, RetryRefusal>)
    modifies mailings, traces
    ensures r == if Count(old(traces.rows), LiveErrorsOf(id)) == 0 then Err(NothingFailed)
                 else if id < |old(mailings.rows)|
                         && old(mailings.rows)[id].state.Done? && !old(mailings.rows)[id].deleted
                 then Ok(Count(old(traces.rows), LiveErrorsOf(id)))
                 else Err(NotDone)
    ensures r.Err? ==> mailings.rows == old(mailings.rows) && traces.rows == old(traces.rows)
    ensures r.Ok? ==> mailings.rows == old(mailings.rows)[id := old(mailings.rows)[id].(state := M.InQueue)]
    ensures r.Ok? ==> traces.rows == Freed(old(traces.rows), id)
    ensures r == Err(NothingFailed) <==>
            forall i :: 0 <= i < |old(traces.rows)| ==>
              var t := old(traces.rows)[i];
              t.deleted || t.status != Error || t.mailing != id
    ensures r.Ok? ==>
              && |traces.rows| == |old(traces.rows)|
              && forall i :: 0 <= i < |traces.rows| ==>
                   var t := old(traces.rows)[i];
                   traces.rows[i] == t.(deleted := t.deleted || (t.status == Error && t.mailing == id))
  {
    var failed := Count(traces.rows, LiveErrorsOf(id));
    CountZero(traces.rows, LiveErrorsOf(id));
    assert forall t: Trace :: LiveErrorsOf(id)(t) == LiveError(t, id);
    if failed == 0 {
      return Err(NothingFailed);
    }
    var requeued := mailings.Execute(id, M.RequeueDone, now);
    if !requeued {
      return Err(NotDone);
    }
    var freed := traces.SoftDeleteFailed(id, RETRY_BATCH);
    return Ok(freed);
  }

  /** Retry opens the mint fence for exactly the recipients whose standing trace was a live error. */
  lemma {:induction false} RetryOpensExactly(ts: Table, id: Id, mailing: Id, recipient: Id)
    requires FenceStands(ts)
    ensures FenceHit(Freed(ts, id), mailing, recipient)
       <==> FenceHit(ts, mailing, recipient)
            && !exists i :: 0 <= i < |ts| && LiveError(ts[i], id) && Holds(ts[i], mailing, recipient)
  {
    var freed := Freed(ts, id);
    FenceIsPairwise(ts);
    if FenceHit(freed, mailing, recipient) {
      var i :| 0 <= i < |freed| && Holds(freed[i], mailing, recipient);
      assert Holds(ts[i], mailing, recipient) && !LiveError(ts[i], id);
      forall j | 0 <= j < |ts| && LiveError(ts[j], id)
        ensures !Holds(ts[j], mailing, recipient)
      {
        assert i != j;
      }
    } else if j :| 0 <= j < |ts| && Holds(ts[j], mailing, recipient) {
      assert !Holds(freed[j], mailing, recipient);
      assert LiveError(ts[j], id);
    }
  }

  /** After a retry the mailing has no live error trace left: a second retry refuses. */
  lemma {:induction false} RetryIsExhaustive(ts: Table, id: Id)
    ensures Count(Freed(ts, id), LiveErrorsOf(id)) == 0
  {
    var freed := Freed(ts, id);
    CountZero(freed, LiveErrorsOf(id));
    assert forall i :: 0 <= i < |freed| ==> LiveErrorsOf(id)(freed[i]) == LiveError(freed[i], id);
  }

  /** A recipient is dealt with after the retry exactly when something other than a freed error dealt with it. */
  lemma {:induction false} HandledAfterRetry(ts: Table, job: Job, x: Id)
    ensures x in Handled(Freed(ts, job.mailing), job)
       <==> exists i :: 0 <= i < |ts| && ts[i].recipient == x && Deals(ts[i], job) && !LiveError(ts[i], job.mailing)
  {
    var freed := Freed(ts, job.mailing);
    if x in Handled(freed, job) {
      var i :| 0 <= i < |freed| && Deals(freed[i], job) && freed[i].recipient == x;
      assert ts[i].recipient == x && Deals(ts[i], job) && !LiveError(ts[i], job.mailing);
    }
    if i :| 0 <= i < |ts| && ts[i].recipient == x && Deals(ts[i], job) && !LiveError(ts[i], job.mailing) {
      assert freed[i] == ts[i];
    }
  }

  /**
   * The drive after a retry: it plans to send to a listed recipient exactly when every trace that
   * dealt with it was a freed error and the walk's own rules allow it. In particular an address that
   * bounced is never sent again: bounce traces are not retried.
   */
  lemma {:induction false} RetriedDriveSendsIff(ts: Table, job: Job, i: nat)
    requires i < |job.recipients| && DistinctIds(job.recipients)
    ensures job.recipients[i].id in IdsOf(Sends(Freed(ts, job.mailing), job))
       <==> && (forall k :: 0 <= k < |ts| && ts[k].recipient == job.recipients[i].id && Deals(ts[k], job) ==>
                  LiveError(ts[k], job.mailing))
            && Deserves(job.recipients, i, {}, job.policy)
  {
    var freed := Freed(ts, job.mailing);
    HandledAfterRetry(ts, job, job.recipients[i].id);
    WorkListsFollowFates(job.recipients, i, Handled(freed, job), job.policy);
  }

  lemma {:induction false} BouncesAreNotRetried(ts: Table, job: Job, k: nat)
    requires k < |ts| && ts[k].mailing == job.mailing && ts[k].status.Bounce? && !ts[k].deleted
    requires DistinctIds(job.recipients)
    ensures ts[k].recipient !in IdsOf(Sends(Freed(ts, job.mailing), job))
  {
    HandledAfterRetry(ts, job, ts[k].recipient);
    assert Deals(ts[k], job);
    SendCancelDisjoint(job.recipients, Handled(Freed(ts, job.mailing), job), job.policy);
  }
}
