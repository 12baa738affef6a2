/**
 * What the repair arm means for an address that may no longer be written to: the suppressions are
 * looked up for the walk, and an orphan is handed to the mail seam without them.
 */
module RepairedOptOut {
  import opened MailTypes
  import opened TraceLifecycle
  import opened TraceTable
  import opened SendWalk
  import opened MailDrive
  import opened Subscriptions
  import opened Sweep
  import ExclusionRuns

  /** The drive gets past its channel guard. */
  predicate DrivesMail(s: Engine, id: Id, night: Night) {
    id < |s.rows| && night.plans(id).scopeError.None? && !s.rows[id].isSms
  }

  /** The drive hands trace `i` to the mail seam: as an orphan, or as one it has just minted to send. */
  predicate Handed(s: Engine, id: Id, night: Night, i: Id)
    requires id < |s.rows|
  {
    var u := DriveOne(s, id, night).traces;
    && i < |u|
    && if i < |s.traces| then DrivesMail(s, id, night) && IsOrphan(s.traces, i, id, night.births, night.now)
       else !u[i].status.Cancel?
  }

  lemma {:induction false} SettledByAnswers(rows: Table, base: Id, a: Seam, b: Seam)
    requires forall k: Id :: base <= k < base + |rows| ==> a(k) == b(k)
    ensures SettledRows(rows, base, a) == SettledRows(rows, base, b)
  {
    forall i | 0 <= i < |rows|
      ensures SettledRows(rows, base, a)[i] == SettledRows(rows, base, b)[i]
    {
      var k: Id := base + i;
      assert a(k) == b(k);
    }
  }

  lemma {:induction false} RepairedByAnswers(ts: Table, mailing: Id, births: Births, now: Time, a: Seam, b: Seam)
    requires forall i: Id :: IsOrphan(ts, i, mailing, births, now) ==> a(i) == b(i)
    ensures Repaired(ts, mailing, births, now, a) == Repaired(ts, mailing, births, now, b)
  {
    forall i: Id | i < |ts|
      ensures Repaired(ts, mailing, births, now, a)[i] == Repaired(ts, mailing, births, now, b)[i]
    {
      assert IsOrphan(ts, i, mailing, births, now) ==> a(i) == b(i);
    }
  }

  lemma {:induction false} SendsFollowCancels(ts: Table, job: Job, seam: Seam, k: nat)
    requires |AfterCancels(ts, job)| <= k < |AfterCancels(ts, job)| + |Minting(ts, job)|
    ensures |ts| <= k < |Pass(ts, job, seam).table| && !Pass(ts, job, seam).table[k].status.Cancel?
  {
    PassAdds(ts, job, seam);
    MintedToSend(ts, job, seam, k - |AfterCancels(ts, job)|);
  }

  lemma {:induction false} PassByAnswers(ts: Table, job: Job, a: Seam, b: Seam)
    requires forall k: Id :: |ts| <= k < |Pass(ts, job, a).table| && !Pass(ts, job, a).table[k].status.Cancel? ==>
               a(k) == b(k)
    ensures Pass(ts, job, a) == Pass(ts, job, b)
  {
    var base := |AfterCancels(ts, job)|;
    forall k: Id | base <= k < base + |Minting(ts, job)|
      ensures a(k) == b(k)
    {
      SendsFollowCancels(ts, job, a, k);
    }
    SettledByAnswers(Minting(ts, job), base, a, b);
    PassAdds(ts, job, a);
    PassAdds(ts, job, b);
  }

  /** The seam is asked about the traces handed to it and no other: only those answers matter. */
  lemma {:induction false} OnlyHandedAnswersMatter(s: Engine, id: Id, night: Night, other: Night)
    requires id < |s.rows| && other == night.(seams := other.seams)
    requires forall i: Id :: Handed(s, id, night, i) ==> night.seams(id)(i) == other.seams(id)(i)
    ensures DriveOne(s, id, other) == DriveOne(s, id, night)
  {
    var a, b := night.seams(id), other.seams(id);
    DriveOneGrows(s, id, night);
    if DrivesMail(s, id, night) {
      forall i: Id | IsOrphan(s.traces, i, id, night.births, night.now)
        ensures a(i) == b(i)
      {
        assert Handed(s, id, night, i);
      }
      RepairedByAnswers(s.traces, id, night.births, night.now, a, b);
    }
    var traces := RepairedFor(s, id, night);
    if EndIn(s, id, night).Walked? {
      var u := Pass(traces, JobOf(id, night), a).table;
      forall k: Id | |traces| <= k < |u| && !u[k].status.Cancel?
        ensures a(k) == b(k)
      {
        assert Handed(s, id, night, k);
      }
      PassByAnswers(traces, JobOf(id, night), a, b);
    }
  }

  /** The walk withholds the address: opted out, or listed where the list applies. */
  predicate Bars(pol: Policy, email: string) {
    email in pol.optedOut || (pol.useExclusionList && email in pol.blacklist)
  }

  /** Some trace of this lowercased address is handed over. */
  ghost predicate IsHanded(s: Engine, id: Id, night: Night, lower: string -> string, email: string)
    requires id < |s.rows|
  {
    exists i: Id :: Handed(s, id, night, i) && lower(DriveOne(s, id, night).traces[i].email) == email
  }

  /** An orphan of the mailing with the address is waiting, and old enough. */
  ghost predicate HasOrphan(s: Engine, id: Id, night: Night, lower: string -> string, email: string) {
    exists i: Id :: IsOrphan(s.traces, i, id, night.births, night.now) && lower(s.traces[i].email) == email
  }

  /** What the drive mints to send is for somebody on the list whom the walk did not withhold. */
  lemma {:induction false} NewSendsAreFree(s: Engine, id: Id, night: Night, i: Id)
    requires id < |s.rows| && Handed(s, id, night, i) && i >= |s.traces|
    ensures night.plans(id).target.Resolved?
    ensures var plan := night.plans(id);
            var email := DriveOne(s, id, night).traces[i].email;
            && (exists r :: r in plan.target.recipients && r.email == email)
            && !Bars(plan.policy, plan.policy.lower(email))
  {
    var traces := RepairedFor(s, id, night);
    var job := JobOf(id, night);
    var base := |AfterCancels(traces, job)|;
    PassAdds(traces, job, night.seams(id));
    assert |traces| == |s.traces| && i >= base;
    MintedToSend(traces, job, night.seams(id), i - base);
    var row := Minting(traces, job)[i - base];
    var r := Recipient(row.recipient, row.email);
    assert r in Sends(traces, job);
    SendListIsExact(job.recipients, |job.recipients|, Handled(traces, job), job.policy);
    assert r in job.recipients;
  }

  /** Every resolved recipient of the address is withheld. */
  ghost predicate IsBarred(plan: Plan, email: string) {
    plan.target.Resolved? && (exists r :: r in plan.target.recipients && plan.policy.lower(r.email) == email) ==>
      Bars(plan.policy, email)
  }

  /**
   * Exactly when a drive hands a barred address to the mail seam: when an orphan of this mailing
   * with the address is old enough. The repair arm asks for no suppression.
   */
  lemma {:induction false} BarredIsHandedIff(s: Engine, id: Id, night: Night, email: string)
    requires id < |s.rows| && IsBarred(night.plans(id), email)
    ensures IsHanded(s, id, night, night.plans(id).policy.lower, email)
       <==> DrivesMail(s, id, night) && HasOrphan(s, id, night, night.plans(id).policy.lower, email)
  {
    var lower := night.plans(id).policy.lower;
    var u := DriveOne(s, id, night).traces;
    DriveOneGrows(s, id, night);
    if IsHanded(s, id, night, lower, email) {
      var i: Id :| Handed(s, id, night, i) && lower(u[i].email) == email;
      if i >= |s.traces| {
        NewSendsAreFree(s, id, night, i);
        assert false;
      }
    }
    if DrivesMail(s, id, night) && HasOrphan(s, id, night, lower, email) {
      var i: Id :| IsOrphan(s.traces, i, id, night.births, night.now) && lower(s.traces[i].email) == email;
      assert Handed(s, id, night, i) && u[i].email == s.traces[i].email;
    }
  }

  /**
   * So an opt-out does not always win: a drive that probes the opt-outs as they stand hands an
   * opted-out address to the seam exactly when such an orphan of it is waiting.
   */
  lemma {:induction false} OptedOutIsHandedIff(s: Engine, id: Id, night: Night, contacts: seq<Contact>,
          subs: seq<Subscription>, email: string)
    requires id < |s.rows| && OptedOutAnywhere(contacts, subs, night.plans(id).policy.lower, email)
    requires night.plans(id).target.Resolved? ==>
               night.plans(id).policy.optedOut
               == ExclusionRuns.OptedOutOf(ExclusionRuns.World(contacts, subs, s.traces),
                                           night.plans(id).target.recipients, night.plans(id).policy.lower)
    ensures IsHanded(s, id, night, night.plans(id).policy.lower, email)
       <==> DrivesMail(s, id, night) && HasOrphan(s, id, night, night.plans(id).policy.lower, email)
  {
    BarredIsHandedIff(s, id, night, email);
  }
}
